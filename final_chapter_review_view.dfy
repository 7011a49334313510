/**
 * The quiz stepping of `struct FinalChapterReviewView`
 * (Views/FinalChapterReviewView.swift). Finishing the review records the chapter as
 * mastered in the manager whatever the score: there is no threshold check.
 */
module FinalChapterReviewView {
  import opened Options
  import opened Chapters
  import opened Mastery
  import opened Quiz
  import Progress

  class FinalReview {
    const chapter: Chapter
    const questions: seq<Question>
    /** `ProgressManager.shared`. */
    const store: Progress.ProgressManager
    var currentIndex: int
    var correctCount: int
    var answered: bool
    var selectedOption: Option<string>
    var finished: bool
    var score: real

    /** How many answers have been graded so far. */
    ghost function Graded(): int
      reads this
    {
      if finished then currentIndex + 1 else currentIndex
    }

    ghost predicate Valid()
      reads this
    {
      && 0 <= currentIndex && (|questions| > 0 ==> currentIndex < |questions|)
      && (finished ==> currentIndex == |questions| - 1)
      && 0 <= correctCount <= Graded() <= |questions|
    }

    constructor (chapter: Chapter, questions: seq<Question>, store: Progress.ProgressManager)
      ensures Valid()
      ensures this.chapter == chapter && this.questions == questions && this.store == store
      ensures currentIndex == 0 && correctCount == 0
      ensures !answered && selectedOption == None && !finished && score == 0.0
    {
      this.chapter, this.questions, this.store := chapter, questions, store;
      currentIndex, correctCount := 0, 0;
      answered, selectedOption, finished, score := false, None, false, 0.0;
    }

    /** Tapping an option: ignored once the question is answered. */
    method SelectOption(option: string)
      modifies this`selectedOption, this`answered
      ensures old(answered) ==> selectedOption == old(selectedOption) && answered
      ensures !old(answered) ==> selectedOption == Some(option) && answered
    {
      if answered {
        return;
      }
      selectedOption := Some(option);
      answered := true;
    }

    /**
     * `nextQuestion()` at time `now` (the button is on the question screen, so the
     * review is not yet finished): nothing without a selection; otherwise the answer is
     * graded, then the review moves on or, at the last question, finishes.
     */
    method NextQuestion(now: int)
      requires Valid() && |questions| > 0 && !finished
      modifies this`currentIndex, this`correctCount, this`answered, this`selectedOption,
               this`finished, this`score, store`mastery
      ensures Valid()
      ensures old(selectedOption).None? ==>
        && currentIndex == old(currentIndex) && correctCount == old(correctCount)
        && answered == old(answered) && selectedOption == None && !finished
        && score == old(score) && store.mastery == old(store.mastery)
      ensures old(selectedOption).Some? ==>
        && correctCount == old(correctCount) +
             (if old(selectedOption).value == questions[old(currentIndex)].correctAnswer then 1 else 0)
        && Graded() == old(Graded()) + 1
      ensures old(selectedOption).Some? && old(currentIndex) < |questions| - 1 ==>
        && currentIndex == old(currentIndex) + 1
        && !answered && selectedOption == None && !finished
        && score == old(score) && store.mastery == old(store.mastery)
      ensures old(selectedOption).Some? && old(currentIndex) == |questions| - 1 ==>
        && currentIndex == old(currentIndex) && finished
        && answered == old(answered) && selectedOption == old(selectedOption)
        && score * |questions| as real == correctCount as real
        && store.mastery == Marked(old(store.mastery), chapter, score, now)
    {
      if selectedOption.None? {
        return;
      }
      var selected := selectedOption.value;
      var correct := questions[currentIndex].correctAnswer;
      if selected == correct {
        correctCount := correctCount + 1;
      }
      if currentIndex < |questions| - 1 {
        currentIndex := currentIndex + 1;
        answered := false;
        selectedOption := None;
      } else {
        FinishReview(now);
      }
    }

    /**
     * `finishReview()` at time `now`: the score is the share of correct answers, and the
     * chapter is recorded as mastered with it, however low it is.
     */
    method FinishReview(now: int)
      requires |questions| > 0 && 0 <= correctCount <= |questions|
      modifies this`finished, this`score, store`mastery
      ensures finished
      ensures 0.0 <= score <= 1.0 && score * |questions| as real == correctCount as real
      ensures store.mastery == Marked(old(store.mastery), chapter, score, now)
      ensures IsMastered(store.mastery, chapter) && HasAttempted(store.mastery, chapter)
      ensures store.mastery[chapter].score == Some(score)
    {
      score := correctCount as real / |questions| as real;
      finished := true;
      store.MarkChapterAsMastered(chapter, score, now);
    }
  }
}
