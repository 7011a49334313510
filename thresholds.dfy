/**
 * Adaptive pass thresholds, the progress-to-section mapping and a chapter's fractional
 * progress (`passingThreshold(for:)`, `currentSection(for:)` and `progress(for:)` of
 * `ProgressManager`, Utils/ProgressManager.swift).
 */
module Thresholds {

  /**
   * `passingThreshold(for:)`: 0.6 below 30% progress, 0.75 below 70%, 0.85 below 90%,
   * and 0.9 otherwise; the `default` case also catches negative progress.
   */
  function PassingThreshold(progress: real): (r: real)
    ensures 0.0 <= progress < 0.3 ==> r == 0.6
    ensures 0.3 <= progress < 0.7 ==> r == 0.75
    ensures 0.7 <= progress < 0.9 ==> r == 0.85
    ensures progress < 0.0 || progress >= 0.9 ==> r == 0.9
  {
    if 0.0 <= progress < 0.3 then 0.6
    else if 0.3 <= progress < 0.7 then 0.75
    else if 0.7 <= progress < 0.9 then 0.85
    else 0.9
  }

  /** Higher progress never lowers the bar, and the bar always lies in [0.6, 0.9]. */
  lemma ThresholdMonotone(p1: real, p2: real)
    requires 0.0 <= p1 <= p2
    ensures 0.6 <= PassingThreshold(p1) <= PassingThreshold(p2) <= 0.9
  {
  }

  /** Swift's `Int(x)` on a `Double`: rounds toward zero. */
  function TruncateToInt(x: real): (r: int)
    ensures x >= 0.0 ==> 0 <= r && r as real <= x < r as real + 1.0
    ensures x < 0.0 ==> r <= 0 && r as real - 1.0 < x <= r as real
  {
    if x >= 0.0 then x.Floor else -((-x).Floor)
  }

  /** `currentSection(for:)`: `Int(progress * 10)`, not clamped to 0..9. */
  function CurrentSection(progress: real): (r: int)
    ensures progress >= 0.0 ==> 0 <= r && r as real <= progress * 10.0 < r as real + 1.0
  {
    TruncateToInt(progress * 10.0)
  }

  /** Progress in [0, 1) lands in one of the ten checkpoint indices 0..9. */
  lemma SectionBelowFullProgress(progress: real)
    requires 0.0 <= progress < 1.0
    ensures 0 <= CurrentSection(progress) <= 9
  {
  }

  /** A finished chapter maps to section index 10, one past the last checkpoint. */
  lemma SectionOfFullProgress()
    ensures CurrentSection(1.0) == 10
  {
  }

  /** Sections never go down as progress grows. */
  lemma SectionMonotone(p1: real, p2: real)
    requires 0.0 <= p1 <= p2
    ensures CurrentSection(p1) <= CurrentSection(p2)
  {
  }

  /** Number of entries of `words` that are in `learned` (duplicates counted each time). */
  function LearnedCount(words: seq<string>, learned: set<string>): (n: nat)
    ensures n <= |words|
    ensures n == |words| <==> forall i :: 0 <= i < |words| ==> words[i] in learned
    ensures n == 0 <==> forall i :: 0 <= i < |words| ==> words[i] !in learned
  {
    if |words| == 0 then 0
    else
      var last := |words| - 1;
      var rest := LearnedCount(words[..last], learned);
      assert forall i :: 0 <= i < last ==> words[i] == words[..last][i];
      if words[last] in learned then rest + 1 else rest
  }

  /** The positions of `words` whose word is learned. */
  ghost function LearnedPositions(words: seq<string>, learned: set<string>): set<nat>
  {
    set i: nat | i < |words| && words[i] in learned
  }

  /** `filter { learned.contains($0) }.count` counts exactly the learned positions. */
  lemma {:induction false} LearnedCountIsPositionCount(words: seq<string>, learned: set<string>)
    ensures LearnedCount(words, learned) == |LearnedPositions(words, learned)|
  {
    if |words| > 0 {
      var last := |words| - 1;
      var front := words[..last];
      LearnedCountIsPositionCount(front, learned);
      assert forall i :: 0 <= i < last ==> words[i] == front[i];
      var p := LearnedPositions(front, learned);
      assert last !in p;
      if words[last] in learned {
        assert LearnedPositions(words, learned) == p + {last};
      } else {
        assert LearnedPositions(words, learned) == p;
      }
    }
  }

  /**
   * `progress(for:)`: the share of the chapter's words that are in the global learned
   * set; 0 for a chapter without words.
   */
  function ChapterProgress(words: seq<string>, learned: set<string>): (r: real)
    ensures 0.0 <= r <= 1.0
    ensures |words| > 0 ==> r * |words| as real == LearnedCount(words, learned) as real
    ensures r == 1.0 <==> |words| > 0 && forall i :: 0 <= i < |words| ==> words[i] in learned
    ensures r == 0.0 <==> forall i :: 0 <= i < |words| ==> words[i] !in learned
  {
    if |words| == 0 then 0.0
    else
      var n := LearnedCount(words, learned);
      var t := |words|;
      RatioBounds(n as real, t as real);
      n as real / t as real
  }

  /** A share n / t of a positive total lies in [0, 1], is 1 only for n = t and 0 only for n = 0. */
  lemma RatioBounds(n: real, t: real)
    requires 0.0 <= n <= t && t > 0.0
    ensures 0.0 <= n / t <= 1.0
    ensures n / t == 1.0 <==> n == t
    ensures n / t == 0.0 <==> n == 0.0
  {
    var q := n / t;
    assert q * t == n;
  }
}
