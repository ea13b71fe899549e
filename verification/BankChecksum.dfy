/** The position-weighted sample hash of expert banks. */
module BankChecksum {
  import opened Arithmetic
  import opened Sequences

  type Byte = x: int | 0 <= x < 256

  const HASH_WEIGHT: nat := 1_000_000_007
  const SAMPLE_TARGET: nat := 1_000_000
  const MAX_SAMPLES: nat := 2_000_000
  const INT64_LIMIT: nat := 0x8000_0000_0000_0000

  datatype Bank = Flat(bytes: seq<Byte>) | Layers(parts: seq<seq<Byte>>)

  function BankTensors(b: Bank): seq<seq<Byte>> {
    match b
    case Flat(bytes) => [bytes]
    case Layers(parts) => parts
  }

  function Step(total: nat): (step: nat)
    ensures step >= 1
  {
    if total / SAMPLE_TARGET >= 1 then total / SAMPLE_TARGET else 1
  }

  function Weight(pos: nat): nat {
    pos % HASH_WEIGHT + 1
  }

  function Term(b: Byte, pos: nat): nat {
    b * Weight(pos)
  }

  /** The strided, position-weighted sum over the first `n` bytes of the flat bank. */
  function SampleSum(flat: seq<Byte>, step: nat, n: nat): nat
    requires step > 0 && n <= |flat|
  {
    if n == 0 then 0
    else SampleSum(flat, step, n - 1) + (if (n - 1) % step == 0 then Term(flat[n - 1], n - 1) else 0)
  }

  function BankHash(flat: seq<Byte>): nat {
    SampleSum(flat, Step(|flat|), |flat|)
  }

  /** Two's-complement 64-bit arithmetic. */
  function Wrap64(x: int): int {
    (x + INT64_LIMIT) % (2 * INT64_LIMIT) - INT64_LIMIT
  }

  lemma WrapIsIdentity(x: int)
    requires 0 <= x < INT64_LIMIT
    ensures Wrap64(x) == x
  {
  }

  // ----- bounds -----------------------------------------------------------------------------

  /** Samples among the first `n` bytes. */
  function Samples(n: nat, step: nat): nat
    requires step > 0
  {
    if n == 0 then 0 else Samples(n - 1, step) + (if (n - 1) % step == 0 then 1 else 0)
  }

  lemma {:induction false} SamplesIsDivCeil(n: nat, step: nat)
    requires step > 0
    ensures Samples(n, step) == DivCeil(n, step)
  {
    if n == 0 {
      DivModUnique(step - 1, 0, step - 1, step);
    } else {
      SamplesIsDivCeil(n - 1, step);
      var q, r := (n - 1) / step, (n - 1) % step;
      assert n - 1 == q * step + r;
      MulDistributes(q, 1, step);
      DivModUnique(n - 1 + step, q + 1, r, step);
      if r == 0 {
        DivModUnique(n - 1 + step - 1, q, step - 1, step);
      } else {
        DivModUnique(n - 1 + step - 1, q + 1, r - 1, step);
      }
    }
  }

  /** Every bank is sampled at no more than two million positions; a bank of a million bytes or more
      at no fewer than a million, one of less than two million at every byte. */
  lemma SampleCountBounds(total: nat)
    ensures Samples(total, Step(total)) <= MAX_SAMPLES
    ensures total >= SAMPLE_TARGET ==> Samples(total, Step(total)) >= SAMPLE_TARGET
    ensures total < MAX_SAMPLES ==> Samples(total, Step(total)) == total
  {
    var step := Step(total);
    SamplesIsDivCeil(total, step);
    var n := DivCeil(total, step);
    assert total + step - 1 == n * step + (total + step - 1) % step;
    MulDistributes(n, MAX_SAMPLES, step);
    MulAtLeast(n - MAX_SAMPLES, step);
    MulDistributes(SAMPLE_TARGET, n, step);
    MulAtLeast(SAMPLE_TARGET - n, step);
  }

  lemma TermBound(b: Byte, pos: nat)
    ensures Term(b, pos) <= 255 * HASH_WEIGHT
  {
    var w := Weight(pos);
    assert w <= HASH_WEIGHT;
    MulAtLeast(255 - b, w);
    MulDistributes(255, b, w);
  }

  /** A stretch of the sum is non-negative and bounded by its number of samples. */
  lemma {:induction false} StretchBound(flat: seq<Byte>, step: nat, lo: nat, hi: nat)
    requires step > 0 && lo <= hi <= |flat|
    ensures 0 <= SampleSum(flat, step, hi) - SampleSum(flat, step, lo)
                <= 255 * HASH_WEIGHT * (Samples(hi, step) - Samples(lo, step))
  {
    if lo < hi {
      StretchBound(flat, step, lo, hi - 1);
      TermBound(flat[hi - 1], hi - 1);
      assert Samples(hi, step) - Samples(hi - 1, step) == if (hi - 1) % step == 0 then 1 else 0;
    }
  }

  lemma {:induction false} SamplesMonotone(lo: nat, hi: nat, step: nat)
    requires step > 0 && lo <= hi
    ensures Samples(lo, step) <= Samples(hi, step)
  {
    if lo < hi {
      SamplesMonotone(lo, hi - 1, step);
    }
  }

  /** No part sum leaves the int64 range, whatever the size of the bank and wherever it is cut. */
  lemma PartSumFitsInt64(flat: seq<Byte>, lo: nat, hi: nat)
    requires lo <= hi <= |flat|
    ensures var step := Step(|flat|);
            0 <= SampleSum(flat, step, hi) - SampleSum(flat, step, lo) < INT64_LIMIT
  {
    var step := Step(|flat|);
    StretchBound(flat, step, lo, hi);
    SampleCountBounds(|flat|);
    SamplesMonotone(hi, |flat|, step);
    SamplesMonotone(lo, hi, step);
  }

  // ----- the loop ---------------------------------------------------------------------------

  /** Between two consecutive multiples of the stride nothing is sampled. */
  lemma {:induction false} SkipUnsampled(flat: seq<Byte>, step: nat, from: nat, to: nat)
    requires step > 0 && from <= to <= |flat|
    requires forall i :: from <= i < to ==> i % step != 0
    ensures SampleSum(flat, step, to) == SampleSum(flat, step, from)
  {
    if from < to {
      SkipUnsampled(flat, step, from, to - 1);
    }
  }

  lemma NoMultipleBetween(m: nat, i: nat, step: nat)
    requires step > 0 && m % step == 0 && m < i < m + step
    ensures i % step != 0
  {
    if i % step == 0 {
      CongruentClose(i, m, step);
    }
  }

  /** The first sampled index of a part that starts at `offset`. */
  lemma FirstSample(offset: nat, step: nat)
    requires step > 0
    ensures var first := (-(offset as int)) % step;
            (offset + first) % step == 0 && forall i :: offset <= i < offset + first ==> i % step != 0
  {
    var k, first := (-(offset as int)) / step, (-(offset as int)) % step;
    assert -(offset as int) == k * step + first;
    MulDistributes(0, k, step);
    DivModUnique(offset + first, -k, 0, step);
    forall i | offset <= i < offset + first ensures i % step != 0 {
      if i % step == 0 {
        CongruentClose(offset + first, i, step);
      }
    }
  }

  /** One stride: the sample at `pos` joins the sum, the bytes up to the next one do not. */
  lemma OneStride(flat: seq<Byte>, step: nat, pos: nat, end: nat)
    requires step > 0 && pos < end <= |flat| && pos % step == 0
    ensures (pos + step) % step == 0
    ensures SampleSum(flat, step, Min(pos + step, end)) == SampleSum(flat, step, pos) + Term(flat[pos], pos)
  {
    MulDistributes(pos / step, 1, step);
    DivModUnique(pos + step, pos / step + 1, 0, step);
    forall i | pos + 1 <= i < Min(pos + step, end) ensures i % step != 0 {
      NoMultipleBetween(pos, i, step);
    }
    SkipUnsampled(flat, step, pos + 1, Min(pos + step, end));
  }

  /** Up to the first sample of a part nothing is added. */
  lemma BeforeFirst(flat: seq<Byte>, step: nat, offset: nat, end: nat)
    requires step > 0 && offset <= end <= |flat|
    ensures var first := (-(offset as int)) % step;
            && (offset + first) % step == 0
            && SampleSum(flat, step, Min(offset + first, end)) == SampleSum(flat, step, offset)
  {
    FirstSample(offset, step);
    SkipUnsampled(flat, step, offset, Min(offset + (-(offset as int)) % step, end));
  }

  /** Adding one sample in 64-bit arithmetic is exact. */
  lemma NoOverflow(flat: seq<Byte>, offset: nat, pos: nat, acc: int)
    requires offset <= pos < |flat| && pos % Step(|flat|) == 0
    requires acc == SampleSum(flat, Step(|flat|), pos) - SampleSum(flat, Step(|flat|), offset)
    ensures Wrap64(acc + Wrap64(Term(flat[pos], pos))) == acc + Term(flat[pos], pos)
  {
    TermBound(flat[pos], pos);
    WrapIsIdentity(Term(flat[pos], pos));
    PartSumFitsInt64(flat, offset, pos + 1);
    WrapIsIdentity(acc + Term(flat[pos], pos));
  }

  /** The contribution of one part, `flat[offset..end]`, accumulated in 64-bit arithmetic. */
  method PartSum(part: seq<Byte>, offset: nat, step: nat, ghost flat: seq<Byte>) returns (sum: int)
    requires step == Step(|flat|) && offset + |part| <= |flat| && part == flat[offset..offset + |part|]
    ensures sum == SampleSum(flat, step, offset + |part|) - SampleSum(flat, step, offset)
  {
    ghost var end := offset + |part|;
    var first := (-(offset as int)) % step;
    BeforeFirst(flat, step, offset, end);
    sum := 0;
    var k := first;
    while k < |part|
      invariant (offset + k) % step == 0
      invariant sum == SampleSum(flat, step, Min(offset + k, end)) - SampleSum(flat, step, offset)
      decreases |part| - k
    {
      var pos := offset + k;
      assert part[k] == flat[pos];
      NoOverflow(flat, offset, pos, sum);
      OneStride(flat, step, pos, end);
      sum := Wrap64(sum + Wrap64(Term(part[k], pos)));
      k := k + step;
    }
  }

  /** The hash of one bank: the same for every way of cutting the bank into parts, empty parts
      included, and computed in 64-bit arithmetic without overflow. */
  method BankSum(parts: seq<seq<Byte>>) returns (h: int)
    ensures h == BankHash(Flatten(parts))
  {
    ghost var flat := Flatten(parts);
    var total := 0;
    for i := 0 to |parts|
      invariant total == |Flatten(parts[..i])|
    {
      assert parts[..i + 1][..i] == parts[..i];
      total := total + |parts[i]|;
    }
    assert parts[..|parts|] == parts;
    var step := if 1 >= total / SAMPLE_TARGET then 1 else total / SAMPLE_TARGET;
    var offset := 0;
    h := 0;
    for i := 0 to |parts|
      invariant offset == |Flatten(parts[..i])| <= total
      invariant h == SampleSum(flat, step, offset)
    {
      var p := parts[i];
      assert parts[..i + 1][..i] == parts[..i];
      PartInFlat(parts, i + 1);
      var s := PartSum(p, offset, step, flat);
      h := h + s;
      offset := offset + |p|;
    }
  }

  lemma {:induction false} PartInFlat(parts: seq<seq<Byte>>, n: nat)
    requires n <= |parts|
    ensures |Flatten(parts[..n])| <= |Flatten(parts)|
    ensures Flatten(parts)[..|Flatten(parts[..n])|] == Flatten(parts[..n])
    decreases |parts| - n
  {
    if n == |parts| {
      assert parts[..n] == parts;
    } else {
      PartInFlat(parts, n + 1);
      assert parts[..n + 1][..n] == parts[..n];
    }
  }

  method Checksum(banks: map<string, Bank>) returns (out: map<string, int>)
    ensures out.Keys == banks.Keys
    ensures forall n :: n in banks ==> out[n] == BankHash(Flatten(BankTensors(banks[n])))
  {
    out := map[];
    var names := banks.Keys;
    while names != {}
      invariant names <= banks.Keys && out.Keys == banks.Keys - names
      invariant forall n :: n in out ==> out[n] == BankHash(Flatten(BankTensors(banks[n])))
      decreases |names|
    {
      var n :| n in names;
      var h := BankSum(BankTensors(banks[n]));
      out := out[n := h];
      names := names - {n};
    }
  }

  // ----- what the hash sees -----------------------------------------------------------------

  lemma {:induction false} UpdateSum(flat: seq<Byte>, step: nat, n: nat, i: nat, x: Byte)
    requires step > 0 && n <= |flat| && i < |flat|
    ensures SampleSum(flat[i := x], step, n) - SampleSum(flat, step, n)
            == if i < n && i % step == 0 then Term(x, i) - Term(flat[i], i) else 0
  {
    if n > 0 {
      UpdateSum(flat, step, n - 1, i, x);
    }
  }

  lemma ProductZero(a: int, b: int)
    ensures a * b == 0 <==> a == 0 || b == 0
  {
  }

  /** Changing one byte changes the hash exactly when the byte is sampled (and really changes). */
  lemma ChangeVisibleIff(flat: seq<Byte>, i: nat, x: Byte)
    requires i < |flat|
    ensures BankHash(flat[i := x]) == BankHash(flat) <==> i % Step(|flat|) != 0 || x == flat[i]
  {
    UpdateSum(flat, Step(|flat|), |flat|, i, x);
    MulDistributes(x, flat[i], Weight(i));
    ProductZero(x - flat[i], Weight(i));
  }

  lemma SwapDelta(a: int, b: int, w: int, z: int)
    ensures (b * w - a * w) + (a * z - b * z) == (b - a) * (w - z)
  {
  }

  /** How much a byte at `i` counts: nothing when it is not sampled. */
  function SampledWeight(i: nat, step: nat): nat
    requires step > 0
  {
    if i % step == 0 then Weight(i) else 0
  }

  lemma ReplaceHash(flat: seq<Byte>, i: nat, x: Byte)
    requires i < |flat|
    ensures BankHash(flat[i := x]) - BankHash(flat) == (x - flat[i]) * SampledWeight(i, Step(|flat|))
  {
    UpdateSum(flat, Step(|flat|), |flat|, i, x);
    MulDistributes(x, flat[i], Weight(i));
  }

  lemma SwapHashDelta(flat: seq<Byte>, i: nat, j: nat)
    requires i < j < |flat|
    ensures BankHash(flat[i := flat[j]][j := flat[i]]) - BankHash(flat)
            == (flat[j] - flat[i]) * (SampledWeight(i, Step(|flat|)) - SampledWeight(j, Step(|flat|)))
  {
    var w, z := SampledWeight(i, Step(|flat|)), SampledWeight(j, Step(|flat|));
    ReplaceHash(flat, i, flat[j]);
    ReplaceHash(flat[i := flat[j]], j, flat[i]);
    MulDistributes(flat[j], flat[i], w);
    MulDistributes(flat[i], flat[j], z);
    SwapDelta(flat[i], flat[j], w, z);
  }

  /** Exchanging two bytes leaves the hash as it is exactly when the bytes are equal, neither is
      sampled, or both are and their offsets agree modulo the weight period; in a bank no longer than
      the period no two offsets agree. */
  lemma SwapVisibleIff(flat: seq<Byte>, i: nat, j: nat)
    requires i < j < |flat|
    ensures var step := Step(|flat|);
            BankHash(flat[i := flat[j]][j := flat[i]]) == BankHash(flat)
            <==> || flat[i] == flat[j]
                 || (i % step != 0 && j % step != 0)
                 || (i % step == 0 && j % step == 0 && i % HASH_WEIGHT == j % HASH_WEIGHT)
  {
    SwapHashDelta(flat, i, j);
    ProductZero(flat[j] as int - flat[i] as int, SampledWeight(i, Step(|flat|)) - SampledWeight(j, Step(|flat|)));
  }

  lemma ShortBankWeightsDiffer(i: nat, j: nat, size: nat)
    requires i < j < size <= HASH_WEIGHT
    ensures i % HASH_WEIGHT != j % HASH_WEIGHT
  {
  }

  /** The stride is the largest that still leaves a million steps, and at least one. */
  lemma StepIsLargest(total: nat, s: nat)
    requires s >= 1
    ensures s <= Step(total) <==> s == 1 || s * 1_000_000 <= total
  {
  }

  lemma OneWeight(x: int, w: int)
    ensures (x + 1 - x) * w == w
  {
  }

  /** What one more in the byte at `i` adds: one more than the offset modulo the period, or nothing
      where the stride passes over it. */
  lemma RaisingAByte(flat: seq<Byte>, i: nat)
    requires i < |flat| && flat[i] < 255
    ensures BankHash(flat[i := flat[i] + 1]) - BankHash(flat)
            == if i % Step(|flat|) == 0 then i % 1_000_000_007 + 1 else 0
  {
    ReplaceHash(flat, i, flat[i] + 1);
    OneWeight(flat[i], SampledWeight(i, Step(|flat|)));
  }

  lemma {:induction false} ZeroSum(flat: seq<Byte>, step: nat, n: nat)
    requires step > 0 && n <= |flat| && forall i :: 0 <= i < n ==> flat[i] == 0
    ensures SampleSum(flat, step, n) == 0
  {
    if n > 0 {
      ZeroSum(flat, step, n - 1);
    }
  }

  /** An all-zero bank hashes to zero; with the step above this determines every hash. */
  lemma ZeroBank(flat: seq<Byte>)
    requires forall i :: 0 <= i < |flat| ==> flat[i] == 0
    ensures BankHash(flat) == 0
  {
    ZeroSum(flat, Step(|flat|), |flat|);
  }
}
