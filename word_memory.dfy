/**
 * One word's memory record (`struct WordMemoryState`, Models/WordMemoryState.swift).
 *
 * The Swift struct has value semantics: its `mutating` methods replace the record
 * held in the caller's array element. Here each mutating method is a function from
 * the old record to the new one; the manager writes the result back into its list.
 * Timestamps are integer seconds.
 */
module WordMemory {

  datatype MemoryState = MemoryState(
    word: string,
    lastReviewed: int,
    confidence: real,
    correctCount: int,
    incorrectCount: int)

  /** Confidence raised by a correct answer and lowered by a wrong one. */
  const CorrectStep: real := 0.15
  const IncorrectStep: real := 0.25

  function Min(a: real, b: real): real { if a <= b then a else b }
  function Max(a: real, b: real): real { if a >= b then a else b }

  predicate InUnit(c: real) { 0.0 <= c <= 1.0 }

  /** `updatePerformance(correct:)`, performed at time `now`. */
  function UpdatePerformance(m: MemoryState, correct: bool, now: int): (r: MemoryState)
    ensures r.word == m.word && r.lastReviewed == now
    ensures correct ==>
      && r.correctCount == m.correctCount + 1
      && r.incorrectCount == m.incorrectCount
      && r.confidence == Min(1.0, m.confidence + CorrectStep)
    ensures !correct ==>
      && r.incorrectCount == m.incorrectCount + 1
      && r.correctCount == m.correctCount
      && r.confidence == Max(0.0, m.confidence - IncorrectStep)
    // confidence stays a probability
    ensures InUnit(m.confidence) ==> InUnit(r.confidence)
    // a correct answer never lowers confidence, a wrong one never raises it
    ensures correct && m.confidence <= 1.0 ==> r.confidence >= m.confidence
    ensures !correct && m.confidence >= 0.0 ==> r.confidence <= m.confidence
  {
    if correct then
      m.(correctCount := m.correctCount + 1, confidence := Min(1.0, m.confidence + CorrectStep),
         lastReviewed := now)
    else
      m.(incorrectCount := m.incorrectCount + 1, confidence := Max(0.0, m.confidence - IncorrectStep),
         lastReviewed := now)
  }

  /**
   * Forgetting is penalised harder than remembering is rewarded: a correct answer
   * followed by a wrong one never leaves a record more confident than before, and
   * strictly less confident when it had any confidence at all.
   */
  lemma CorrectThenWrongLoses(m: MemoryState, t1: int, t2: int)
    requires InUnit(m.confidence)
    ensures UpdatePerformance(UpdatePerformance(m, true, t1), false, t2).confidence <= m.confidence
    ensures m.confidence > 0.0 ==>
      UpdatePerformance(UpdatePerformance(m, true, t1), false, t2).confidence < m.confidence
  {
  }

  /** `Date().timeIntervalSince(lastReviewed) / 3600`. */
  function HoursSince(m: MemoryState, now: int): real
  {
    (now - m.lastReviewed) as real / 3600.0
  }

  /**
   * `applyDecay()` with the factor `exp(-hours / 48)` already evaluated as `k`:
   * confidence is multiplied by `k`, then clamped at 0. Nothing else changes; in
   * particular `lastReviewed` is left as it was.
   */
  function ApplyDecay(m: MemoryState, k: real): (r: MemoryState)
    ensures r.word == m.word && r.lastReviewed == m.lastReviewed
    ensures r.correctCount == m.correctCount && r.incorrectCount == m.incorrectCount
    ensures r.confidence == Max(0.0, m.confidence * k)
    ensures r.confidence >= 0.0
    ensures 0.0 <= k <= 1.0 && m.confidence >= 0.0 ==> r.confidence <= m.confidence
    ensures m.confidence > 0.0 && 0.0 < k < 1.0 ==> 0.0 < r.confidence < m.confidence
    ensures InUnit(m.confidence) && 0.0 <= k <= 1.0 ==> InUnit(r.confidence)
    ensures k == 1.0 && m.confidence >= 0.0 ==> r == m
  {
    ClampedScaleBounds(m.confidence, k);
    m.(confidence := Max(0.0, m.confidence * k))
  }

  /** The bounds of `max(0, c * k)` that `ApplyDecay` promises, over reals alone. */
  lemma ClampedScaleBounds(c: real, k: real)
    ensures Max(0.0, c * k) >= 0.0
    ensures 0.0 <= k <= 1.0 && c >= 0.0 ==> Max(0.0, c * k) <= c
    ensures c > 0.0 && 0.0 < k < 1.0 ==> 0.0 < Max(0.0, c * k) < c
    ensures InUnit(c) && 0.0 <= k <= 1.0 ==> InUnit(Max(0.0, c * k))
    ensures k == 1.0 && c >= 0.0 ==> Max(0.0, c * k) == c
  {
    ScaleBelow(c, k);
    if c > 0.0 && 0.0 < k < 1.0 {
      PositiveScaleShrinks(c, k);
    }
  }

  /**
   * What the model assumes of `exp(-h / 48)` as a function of elapsed hours `h`:
   * 1 at h = 0, in (0, 1] for h >= 0, and non-increasing in h.
   */
  ghost predicate IsDecayFactor(f: real -> real)
  {
    && f(0.0) == 1.0
    && (forall h :: 0.0 <= h ==> 0.0 < f(h) <= 1.0)
    && (forall h1, h2 :: 0.0 <= h1 <= h2 ==> f(h2) <= f(h1))
  }

  /** `applyDecay()` evaluated at time `now` with decay curve `f`. */
  function DecayAt(m: MemoryState, now: int, f: real -> real): MemoryState
  {
    ApplyDecay(m, f(HoursSince(m, now)))
  }

  /** Decay at zero elapsed time is the identity on a record with non-negative confidence. */
  lemma DecayAtReviewTimeIsIdentity(m: MemoryState, f: real -> real)
    requires IsDecayFactor(f) && m.confidence >= 0.0
    ensures DecayAt(m, m.lastReviewed, f) == m
  {
    assert HoursSince(m, m.lastReviewed) == 0.0;
  }

  /** The product of two non-negative reals is non-negative. */
  lemma ProductNonNegative(a: real, b: real)
    requires a >= 0.0 && b >= 0.0
    ensures a * b >= 0.0
  {
  }

  /** Scaling a non-negative confidence by a smaller factor gives a smaller result. */
  lemma ScaleMonotone(c: real, k1: real, k2: real)
    requires c >= 0.0 && 0.0 <= k2 <= k1
    ensures 0.0 <= c * k2 <= c * k1
  {
    ProductNonNegative(c, k2);
    ProductNonNegative(c, k1 - k2);
    assert c * k1 - c * k2 == c * (k1 - k2);
  }

  /** A factor in [0, 1] never raises a non-negative confidence. */
  lemma ScaleBelow(c: real, k: real)
    ensures c >= 0.0 && 0.0 <= k <= 1.0 ==> c * k <= c
  {
    if c >= 0.0 && 0.0 <= k <= 1.0 {
      ScaleMonotone(c, 1.0, k);
    }
  }

  /** The later decay is read, the lower the decayed confidence. */
  lemma DecayNonIncreasingInTime(m: MemoryState, t1: int, t2: int, f: real -> real)
    requires IsDecayFactor(f) && m.confidence >= 0.0
    requires m.lastReviewed <= t1 <= t2
    ensures DecayAt(m, t2, f).confidence <= DecayAt(m, t1, f).confidence
    ensures DecayAt(m, t1, f).confidence <= m.confidence
  {
    var h1, h2 := HoursSince(m, t1), HoursSince(m, t2);
    assert 0.0 <= h1 <= h2;
    var k1, k2 := f(h1), f(h2);
    assert 0.0 < k2 <= k1 <= 1.0;
    ApplyDecayMonotone(m, k1, k2);
    ApplyDecayMonotone(m, 1.0, k1);
  }

  /** A smaller factor never leaves more confidence. */
  lemma ApplyDecayMonotone(m: MemoryState, k1: real, k2: real)
    requires m.confidence >= 0.0 && 0.0 <= k2 <= k1
    ensures ApplyDecay(m, k2).confidence <= ApplyDecay(m, k1).confidence
    ensures k1 == 1.0 ==> ApplyDecay(m, k1).confidence == m.confidence
  {
    ClampedScaleMonotone(m.confidence, k1, k2);
  }

  /** `max(0, c * k)` does not increase as `k` decreases. */
  lemma ClampedScaleMonotone(c: real, k1: real, k2: real)
    requires c >= 0.0 && 0.0 <= k2 <= k1
    ensures Max(0.0, c * k2) <= Max(0.0, c * k1)
  {
    ScaleMonotone(c, k1, k2);
  }

  /** Decaying twice by the same factor `k` multiplies confidence by `k` twice. */
  lemma ApplyDecayTwice(m: MemoryState, k: real)
    requires m.confidence > 0.0 && 0.0 < k < 1.0
    ensures ApplyDecay(ApplyDecay(m, k), k).confidence == (m.confidence * k) * k
    ensures 0.0 < ApplyDecay(ApplyDecay(m, k), k).confidence < ApplyDecay(m, k).confidence
  {
    var once := ApplyDecay(m, k);
    assert once.confidence == m.confidence * k;
  }

  /** A positive value scaled by a factor in (0, 1) stays positive and shrinks. */
  lemma PositiveScaleShrinks(c: real, k: real)
    requires c > 0.0 && 0.0 < k < 1.0
    ensures 0.0 < c * k < c
  {
    assert c - c * k == c * (1.0 - k);
  }

  /**
   * Decay compounds: because `applyDecay` leaves `lastReviewed` alone, decaying an
   * already decayed record at the same instant multiplies by the same factor again,
   * and a record with positive confidence loses more each time the factor is below 1.
   */
  lemma RepeatedDecayCompounds(m: MemoryState, now: int, f: real -> real)
    requires IsDecayFactor(f) && m.confidence > 0.0 && m.lastReviewed <= now
    requires f(HoursSince(m, now)) < 1.0
    ensures var once := DecayAt(m, now, f);
      && HoursSince(once, now) == HoursSince(m, now)
      && 0.0 < DecayAt(once, now, f).confidence < once.confidence
  {
    var h := HoursSince(m, now);
    assert 0.0 <= h;
    var k := f(h);
    assert 0.0 < k < 1.0;
    ApplyDecayTwice(m, k);
  }
}
