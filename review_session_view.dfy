/**
 * The quiz stepping of `struct ReviewSessionView` (Views/ReviewSessionView.swift): its
 * `@State` fields become the fields of `ReviewSession`. The question list is generated
 * at random by the source and is given here.
 */
module ReviewSessionView {
  import opened Options
  import opened Thresholds
  import opened Quiz

  class ReviewSession {
    const questions: seq<Question>
    /** The chapter progress the session was opened at; it picks the pass threshold. */
    const currentProgress: real
    var currentIndex: int
    var correctCount: int
    var answered: bool
    var selectedOption: Option<string>
    var showResults: bool

    /** How many answers have been graded so far. */
    ghost function Graded(): int
      reads this
    {
      if showResults then currentIndex + 1 else currentIndex
    }

    /**
     * The index stays on a question, results are shown only from the last question,
     * and the correct answers never outnumber the graded ones.
     */
    ghost predicate Valid()
      reads this
    {
      && 0 <= currentIndex && (|questions| > 0 ==> currentIndex < |questions|)
      && (showResults ==> currentIndex == |questions| - 1)
      && 0 <= correctCount <= Graded() <= |questions|
    }

    constructor (questions: seq<Question>, currentProgress: real)
      ensures Valid()
      ensures this.questions == questions && this.currentProgress == currentProgress
      ensures currentIndex == 0 && correctCount == 0
      ensures !answered && selectedOption == None && !showResults
    {
      this.questions := questions;
      this.currentProgress := currentProgress;
      currentIndex, correctCount := 0, 0;
      answered, selectedOption, showResults := false, None, false;
    }

    /** Tapping an option in `ReviewQuestionView`: ignored once the question is answered. */
    method SelectOption(option: string)
      modifies this`selectedOption, this`answered
      ensures old(answered) ==> selectedOption == old(selectedOption) && answered
      ensures !old(answered) ==> selectedOption == Some(option) && answered
    {
      if answered {
        return;
      }
      selectedOption := Some(option);
      answered := true;
    }

    /**
     * `nextQuestion()` (the button is on the question screen, so results are not yet
     * shown): nothing without a selection; otherwise the answer is graded, then the
     * session moves to the next question or, at the last one, shows the results.
     */
    method NextQuestion()
      requires Valid() && |questions| > 0 && !showResults
      modifies this`currentIndex, this`correctCount, this`answered, this`selectedOption, this`showResults
      ensures Valid()
      ensures old(selectedOption).None? ==>
        && currentIndex == old(currentIndex) && correctCount == old(correctCount)
        && answered == old(answered) && selectedOption == None && !showResults
      ensures old(selectedOption).Some? ==>
        && correctCount == old(correctCount) +
             (if old(selectedOption).value == questions[old(currentIndex)].correctAnswer then 1 else 0)
        && Graded() == old(Graded()) + 1
      ensures old(selectedOption).Some? && old(currentIndex) < |questions| - 1 ==>
        && currentIndex == old(currentIndex) + 1
        && !answered && selectedOption == None && !showResults
      ensures old(selectedOption).Some? && old(currentIndex) == |questions| - 1 ==>
        && currentIndex == old(currentIndex) && showResults
        && answered == old(answered) && selectedOption == old(selectedOption)
    {
      if selectedOption.None? {
        return;
      }
      var selected := selectedOption.value;
      var correct := questions[currentIndex].correctAnswer;
      if selected == correct {
        correctCount := correctCount + 1;
      }
      if currentIndex < |questions| - 1 {
        currentIndex := currentIndex + 1;
        answered := false;
        selectedOption := None;
      } else {
        showResults := true;
      }
    }

    /**
     * `handleCompletion()`: the score is the share of correct answers over all
     * questions, and the session passes exactly when it reaches the threshold for the
     * session's progress, the same decision `ReviewResultView` displays.
     */
    method HandleCompletion() returns (passed: bool, score: real)
      requires Valid() && showResults
      ensures Graded() == |questions|
      ensures 0.0 <= score <= 1.0 && score * |questions| as real == correctCount as real
      ensures passed <==> score >= PassingThreshold(currentProgress)
      ensures passed == Passed(correctCount, |questions|, currentProgress)
    {
      score := correctCount as real / |questions| as real;
      passed := score >= PassingThreshold(currentProgress);
    }
  }

}
