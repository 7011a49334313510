/**
 * The pass decision shared by `ReviewSessionView.handleCompletion` and
 * `ReviewResultView` (Views/ReviewSessionView.swift), and the score of
 * `FinalChapterReviewView.finishReview`.
 */
module Quiz {
  import opened Thresholds

  /** The part of a `ReviewQuestion` the stepping logic uses. */
  datatype Question = Question(italian: string, correctAnswer: string, options: seq<string>)

  /** `Double(correctCount) / Double(total)`. */
  function Score(correct: int, total: int): (r: real)
    requires total > 0
    ensures 0 <= correct <= total ==> 0.0 <= r <= 1.0
    ensures r * total as real == correct as real
  {
    correct as real / total as real
  }

  /** `score >= passingThreshold(for: progress)`. */
  predicate Passed(correct: int, total: int, progress: real)
    requires total > 0
  {
    Score(correct, total) >= PassingThreshold(progress)
  }

  /** Passing means answering at least the threshold's share of the questions correctly. */
  lemma PassedIffEnoughCorrect(correct: int, total: int, progress: real)
    requires total > 0
    ensures Passed(correct, total, progress) <==> correct as real >= PassingThreshold(progress) * total as real
  {
    RatioAtLeast(correct as real, total as real, PassingThreshold(progress));
  }

  lemma RatioAtLeast(c: real, t: real, th: real)
    requires t > 0.0
    ensures c / t >= th <==> c >= th * t
  {
    var s := c / t;
    assert s * t == c;
    if s >= th {
      ScaleKeepsOrder(th, s, t);
    } else {
      ScaleKeepsStrictOrder(s, th, t);
    }
  }

  lemma ScaleKeepsOrder(a: real, b: real, t: real)
    requires a <= b && t > 0.0
    ensures a * t <= b * t
  {
  }

  lemma ScaleKeepsStrictOrder(a: real, b: real, t: real)
    requires a < b && t > 0.0
    ensures a * t < b * t
  {
  }

  /** A perfect session always passes and an all-wrong session always fails. */
  lemma ExtremesDecide(total: int, progress: real)
    requires total > 0
    ensures Passed(total, total, progress)
    ensures !Passed(0, total, progress)
  {
    assert Score(total, total) == 1.0;
    assert Score(0, total) == 0.0;
  }

  /** More correct answers never turn a pass into a fail. */
  lemma PassedMonotoneInCorrect(c1: int, c2: int, total: int, progress: real)
    requires total > 0 && c1 <= c2
    requires Passed(c1, total, progress)
    ensures Passed(c2, total, progress)
  {
    PassedIffEnoughCorrect(c1, total, progress);
    PassedIffEnoughCorrect(c2, total, progress);
  }

  /** The same result passes at least as easily earlier in the chapter. */
  lemma EarlierProgressIsLenient(correct: int, total: int, p1: real, p2: real)
    requires total > 0 && 0.0 <= p1 <= p2
    requires Passed(correct, total, p2)
    ensures Passed(correct, total, p1)
  {
    ThresholdMonotone(p1, p2);
  }

  /** 3 of 5 passes early in a chapter (threshold 0.6) but not near its end (0.9). */
  lemma ThreeOfFiveScenario()
    ensures Passed(3, 5, 0.1)
    ensures !Passed(3, 5, 0.95)
  {
    assert Score(3, 5) == 0.6;
  }
}
