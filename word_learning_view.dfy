/**
 * The glue of `struct WordLearningView` (Views/WordLearningView.swift): what one
 * "learned" tap does to the cursor and the manager, which checkpoint it brings up for
 * review, and which section the review's result is written to.
 */
module WordLearningView {
  import opened Options
  import opened Chapters
  import opened Checkpoints
  import opened Thresholds
  import opened MemoryBook
  import opened Activity
  import opened Learning
  import Progress

  /**
   * Whether a learning step at `progress` brings up a review: the checkpoint at index
   * `currentSection(progress)` exists and is not completed.
   */
  predicate TriggersReview(cps: seq<Checkpoint>, progress: real)
  {
    var s := CurrentSection(progress);
    0 <= s < |cps| && !cps[s].completed
  }

  /**
   * Once every word counts as learned (the ratio over the global learned set can even
   * exceed 1), the section index is 10 or more and no review comes up.
   */
  lemma FullProgressTriggersNothing(cps: seq<Checkpoint>, progress: real)
    requires WellFormed(cps) && progress >= 1.0
    ensures !TriggersReview(cps, progress)
  {
    SectionMonotone(1.0, progress);
    SectionOfFullProgress();
  }

  /**
   * Below full progress the review result, written to section `index + 1`, lands on the
   * very checkpoint at `index` that brought the review up.
   */
  lemma ResultLandsOnTriggeringCheckpoint(cps: seq<Checkpoint>, progress: real)
    requires WellFormed(cps) && 0.0 <= progress < 1.0
    ensures FirstIndexOfSection(cps, CurrentSection(progress) + 1) == Some(CurrentSection(progress))
  {
    SectionBelowFullProgress(progress);
    SectionPosition(cps, CurrentSection(progress) + 1);
  }

  /** A passed review stops the same progress from bringing that review up again. */
  lemma PassedReviewIsNotTriggeredAgain(cps: seq<Checkpoint>, progress: real, score: real,
                                        now: int, retryInterval: int)
    requires WellFormed(cps) && 0.0 <= progress < 1.0
    ensures !TriggersReview(AfterUpdate(cps, CurrentSection(progress) + 1, true, score, now, retryInterval), progress)
  {
    ResultLandsOnTriggeringCheckpoint(cps, progress);
  }

  /** A failed review keeps that checkpoint open, so the same progress brings it up again. */
  lemma FailedReviewIsTriggeredAgain(cps: seq<Checkpoint>, progress: real, score: real,
                                     now: int, retryInterval: int)
    requires WellFormed(cps) && 0.0 <= progress < 1.0
    ensures TriggersReview(AfterUpdate(cps, CurrentSection(progress) + 1, false, score, now, retryInterval), progress)
  {
    ResultLandsOnTriggeringCheckpoint(cps, progress);
  }

  class WordLearningScreen {
    const viewModel: LearningViewModel
    /** `ProgressManager.shared`. */
    const manager: Progress.ProgressManager
    const currentChapter: Chapter
    var currentProgress: real
    var showReviewSession: bool

    ghost predicate Valid()
      reads this, viewModel, manager
    {
      && viewModel.store == manager
      && viewModel.Valid() && |viewModel.words| > 0
      && manager.Valid()
    }

    constructor (viewModel: LearningViewModel, currentChapter: Chapter)
      requires viewModel.Valid() && |viewModel.words| > 0 && viewModel.store.Valid()
      ensures Valid()
      ensures this.viewModel == viewModel && this.manager == viewModel.store
      ensures this.currentChapter == currentChapter
      ensures currentProgress == 0.0 && !showReviewSession
    {
      this.viewModel := viewModel;
      this.manager := viewModel.store;
      this.currentChapter := currentChapter;
      currentProgress := 0.0;
      showReviewSession := false;
    }

    /**
     * `evaluateProgressAndTriggerReview()`: progress is the size of the global learned
     * set over the chapter's word count; the review comes up when the checkpoint at the
     * resulting section index exists and is open. Loading the checkpoints initialises
     * them lazily.
     */
    method EvaluateProgressAndTriggerReview()
      requires Valid()
      modifies this`currentProgress, this`showReviewSession, manager`checkpoints
      ensures Valid()
      ensures currentProgress == |viewModel.learnedWords| as real / |viewModel.words| as real
      ensures manager.checkpoints ==
        old(manager.checkpoints)[currentChapter := old(manager.CheckpointsOf(currentChapter))]
      ensures showReviewSession ==
        (old(showReviewSession) || TriggersReview(old(manager.CheckpointsOf(currentChapter)), currentProgress))
    {
      currentProgress := |viewModel.learnedWords| as real / |viewModel.words| as real;
      var sectionIndex := CurrentSection(currentProgress);
      var checkpoints := manager.ReviewCheckpoints(currentChapter);
      if !(sectionIndex < |checkpoints|) {
        return;
      }
      if !checkpoints[sectionIndex].completed {
        showReviewSession := true;
      }
    }

    /**
     * `handleReviewCompletion(passed:score:)` at time `now`: the result goes to section
     * `currentSection(currentProgress) + 1`, and the session is hidden.
     */
    method HandleReviewCompletion(passed: bool, score: real, now: int)
      requires manager.Valid()
      modifies this`showReviewSession, manager`checkpoints, manager`reminders
      ensures manager.Valid()
      ensures !showReviewSession
      ensures manager.checkpoints == old(manager.checkpoints)[currentChapter :=
        AfterUpdate(old(manager.CheckpointsOf(currentChapter)), CurrentSection(currentProgress) + 1,
                    passed, score, now, manager.retryInterval)]
      ensures manager.reminders == old(manager.reminders) +
        Progress.RetryReminders(old(manager.CheckpointsOf(currentChapter)), CurrentSection(currentProgress) + 1,
                                passed, manager.retryInterval)
    {
      var sectionIndex := CurrentSection(currentProgress);
      manager.UpdateCheckpoint(currentChapter, sectionIndex + 1, passed, score, now);
      showReviewSession := false;
    }

    /**
     * `markAsLearnedTapped()` at time `now` on day `today`, in the source's order: mark
     * the word (the cursor advances), log the day's activity, update the streak,
     * evaluate the review trigger, then record a correct answer for the word now under
     * the cursor, which is the following word unless the cursor was on the last one.
     */
    method MarkAsLearnedTapped(now: int, today: int)
      requires Valid()
      modifies viewModel`learnedWords, viewModel`currentIndex
      modifies manager`learnedWords, manager`activity, manager`currentStreak, manager`bestStreak,
               manager`lastActiveDay, manager`reminders, manager`checkpoints, manager`memory
      modifies this`currentProgress, this`showReviewSession
      ensures Valid()
      ensures viewModel.learnedWords == old(viewModel.learnedWords) + {old(viewModel.CurrentWord()).italian}
      ensures manager.learnedWords == viewModel.learnedWords
      ensures viewModel.currentIndex == Advanced(old(viewModel.currentIndex), |viewModel.words|)
      ensures manager.activity == Logged(old(manager.activity), today)
      ensures var step := StreakStep(Streak(old(manager.currentStreak), old(manager.bestStreak),
                                            old(manager.lastActiveDay)), today);
        && Streak(manager.currentStreak, manager.bestStreak, manager.lastActiveDay) == step.streak
        && manager.reminders == old(manager.reminders) +
             if step.remind then [Progress.Reminder(Progress.StreakReminderTitle, Progress.StreakReminderDelay)] else []
      ensures currentProgress == |viewModel.learnedWords| as real / |viewModel.words| as real
      ensures manager.checkpoints ==
        old(manager.checkpoints)[currentChapter := old(manager.CheckpointsOf(currentChapter))]
      ensures showReviewSession ==
        (old(showReviewSession) || TriggersReview(old(manager.CheckpointsOf(currentChapter)), currentProgress))
      ensures manager.memory == Answered(old(manager.memory), viewModel.CurrentWord().italian, true, now)
      ensures old(viewModel.currentIndex) < |viewModel.words| - 1 ==>
        viewModel.CurrentWord() == viewModel.words[old(viewModel.currentIndex) + 1]
      ensures old(viewModel.currentIndex) == |viewModel.words| - 1 ==>
        viewModel.CurrentWord() == old(viewModel.CurrentWord())
    {
      viewModel.MarkAsLearned();
      manager.LogDailyLearningActivity(today);
      manager.UpdateStreak(today);
      EvaluateProgressAndTriggerReview();
      manager.UpdateMemoryState(viewModel.CurrentWord().italian, true, now);
    }
  }
}
