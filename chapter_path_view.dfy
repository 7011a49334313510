/**
 * The rules of `struct ChapterPathView` (Views/ChapterPathView.swift): which chapters
 * are unlocked, given the progress map `allChapterProgress()` produces, and where a
 * review launched from the banner writes its result.
 */
module ChapterPathView {
  import opened Options
  import opened Chapters
  import opened Checkpoints
  import opened Thresholds
  import Progress

  /** The unlock threshold: 70% of the previous chapter. */
  const UnlockThreshold: real := 0.7

  /** `progressDict[chapter] ?? 0.0`. */
  function ProgressOf(progressDict: map<Chapter, real>, c: Chapter): real
  {
    if c in progressDict then progressDict[c] else 0.0
  }

  /**
   * `isChapterUnlocked(_:)`: the first chapter always; any other one when the chapter
   * just before it in `allCases` has progress of at least 0.7. (The source's `return
   * false` for a chapter missing from `allCases` cannot happen: every case is listed.)
   */
  function IsChapterUnlocked(c: Chapter, progressDict: map<Chapter, real>): bool
  {
    var index := Index(c);
    if index == 0 then true
    else ProgressOf(progressDict, AllChapters[index - 1]) >= UnlockThreshold
  }

  /** `allChapterProgress()`: every chapter's share of learned words. */
  function AllChapterProgress(content: Chapter -> seq<string>, learned: set<string>): (r: map<Chapter, real>)
    ensures forall c :: c in r && 0.0 <= r[c] <= 1.0
    ensures forall c :: c in r && r[c] == ChapterProgress(content(c), learned)
  {
    map c: Chapter :: ChapterProgress(content(c), learned)
  }

  /** The first chapter is unlocked whatever the progress map holds. */
  lemma FirstChapterAlwaysUnlocked(progressDict: map<Chapter, real>)
    ensures IsChapterUnlocked(LaStrada, progressDict)
  {
  }

  /**
   * Any later chapter is unlocked exactly when the previous chapter has an entry of at
   * least 0.7; in particular a missing entry keeps it locked.
   */
  lemma UnlockNeedsPreviousEntry(c: Chapter, progressDict: map<Chapter, real>)
    requires c != LaStrada
    ensures Index(c) > 0
    ensures var previous := AllChapters[Index(c) - 1];
      IsChapterUnlocked(c, progressDict) <==> previous in progressDict && progressDict[previous] >= 0.7
  {
    AllChaptersDistinct();
    assert AllChapters[0] == LaStrada;
  }

  /** More progress never locks a chapter that was unlocked. */
  lemma UnlockMonotone(c: Chapter, before: map<Chapter, real>, after: map<Chapter, real>)
    requires forall d :: ProgressOf(before, d) <= ProgressOf(after, d)
    requires IsChapterUnlocked(c, before)
    ensures IsChapterUnlocked(c, after)
  {
  }

  /**
   * Partial progress: the chapter after the `i`-th is unlocked exactly when the `i`-th
   * has words and at least 70% of them (counted with repetitions) are learned.
   */
  lemma NextUnlockedIffSeventyPercent(content: Chapter -> seq<string>, learned: set<string>, i: nat)
    requires i + 1 < |AllChapters|
    ensures var words := content(AllChapters[i]);
      (IsChapterUnlocked(AllChapters[i + 1], AllChapterProgress(content, learned))
       <==> |words| > 0 && LearnedCount(words, learned) as real >= UnlockThreshold * |words| as real)
  {
    var words := content(AllChapters[i]);
    var p := ChapterProgress(words, learned);
    AllChaptersDistinct();
    assert Index(AllChapters[i + 1]) == i + 1;
    if |words| > 0 {
      ShareAtLeast(p, LearnedCount(words, learned) as real, |words| as real, UnlockThreshold);
    }
  }

  /** A share `p` of a positive total `t` reaches `th` exactly when `p * t` reaches `th * t`. */
  lemma ShareAtLeast(p: real, n: real, t: real, th: real)
    requires t > 0.0 && p * t == n
    ensures p >= th <==> n >= th * t
  {
    assert n - th * t == (p - th) * t;
    if p >= th {
      assert (p - th) * t >= 0.0;
    } else {
      assert (th - p) * t > 0.0;
    }
  }

  /** Learning every word of a non-empty chapter unlocks the next chapter. */
  lemma FinishingAChapterUnlocksTheNext(content: Chapter -> seq<string>, learned: set<string>, i: nat)
    requires i + 1 < |AllChapters|
    requires |content(AllChapters[i])| > 0
    requires forall w :: w in content(AllChapters[i]) ==> w in learned
    ensures IsChapterUnlocked(AllChapters[i + 1], AllChapterProgress(content, learned))
  {
    var words := content(AllChapters[i]);
    assert ChapterProgress(words, learned) == 1.0 by {
      assert forall j :: 0 <= j < |words| ==> words[j] in learned by {
        forall j | 0 <= j < |words| ensures words[j] in learned {
          assert words[j] in words;
        }
      }
    }
    AllChaptersDistinct();
    assert Index(AllChapters[i + 1]) == i + 1;
  }

  /**
   * With every word of every chapter learned, as `unlockAllChaptersForTesting()` leaves
   * them, and no chapter empty, every chapter is unlocked.
   */
  lemma EverythingLearnedUnlocksAll(content: Chapter -> seq<string>, learned: set<string>)
    requires forall c :: |content(c)| > 0
    requires forall c, w :: w in content(c) ==> w in learned
    ensures forall c :: IsChapterUnlocked(c, AllChapterProgress(content, learned))
  {
    forall c ensures IsChapterUnlocked(c, AllChapterProgress(content, learned)) {
      var index := Index(c);
      if index > 0 {
        FinishingAChapterUnlocksTheNext(content, learned, index - 1);
      }
    }
  }

  /**
   * The completion closure of `launchPendingReview(for:)` at time `now`: the result is
   * written to section 1, whichever checkpoint was pending. The banner opens its
   * session with `currentProgress: 0.0`, so `passed` was decided against the threshold
   * for zero progress (0.6), whatever the chapter's real progress.
   */
  method CompleteBannerReview(manager: Progress.ProgressManager, chapter: Chapter,
                              passed: bool, score: real, now: int)
    requires manager.Valid()
    requires passed <==> score >= PassingThreshold(0.0)
    modifies manager`checkpoints, manager`reminders
    ensures manager.Valid()
    ensures manager.checkpoints == old(manager.checkpoints)[chapter :=
      AfterUpdate(old(manager.CheckpointsOf(chapter)), 1, passed, score, now, manager.retryInterval)]
    ensures manager.reminders == old(manager.reminders) +
      Progress.RetryReminders(old(manager.CheckpointsOf(chapter)), 1, passed, manager.retryInterval)
  {
    manager.UpdateCheckpoint(chapter, 1, passed, score, now);
  }

  /**
   * Because the banner writes section 1, a pending checkpoint of a later section stays
   * pending after the review, whether it was passed or failed (with a positive retry
   * interval).
   */
  lemma BannerReviewKeepsLaterPending(cps: seq<Checkpoint>, progress: real, passed: bool,
                                      score: real, now: int, retryInterval: int)
    requires WellFormed(cps) && retryInterval > 0
    requires Pending(cps, progress, now).Some? && Pending(cps, progress, now).value.section != 1
    ensures Pending(AfterUpdate(cps, 1, passed, score, now, retryInterval), progress, now)
         == Pending(cps, progress, now)
  {
    var k := FirstDue(cps, now).value;
    assert k != 0;
    SectionOneUpdateKeepsLaterPending(cps, passed, score, now, retryInterval);
    SectionPosition(cps, 1);
  }
}
