# Patente-Learning progress engine in Dafny

Patente-Learning is an iOS app for learning the Italian vocabulary of the driving-licence
theory exam, chapter by chapter. This project models its adaptive-review and progress
engine and proves what that engine promises:

- **Review checkpoints.** Every chapter has ten checkpoints, sections 1 to 10. They are
  created lazily. A review result passes or fails one of them. A failure schedules a retry
  and a "Review Ready" reminder. A pending-review scan finds the first checkpoint that is
  open and due.
- **Adaptive thresholds.** The pass threshold rises with chapter progress. Progress maps to
  a checkpoint index by truncating ten times the progress.
- **Word memory.** Each word has a confidence. A correct answer raises it by 0.15, capped
  at 1. A wrong answer lowers it by 0.25, floored at 0. Decay multiplies it by a factor of
  the elapsed hours. The next-review time uses the confidence bracket and a ±10% jitter.
  The weak-word list decays and stores every record, then keeps the weakest records below
  a threshold.
- **Activity, streak and mastery.** A per-day counter, read back as a seven-day window. The
  streak counters. The per-chapter mastery ledger and its average score.
- **Views.** The learning cursor (`LearningViewModel`) and the quiz stepping of the review
  session and of the final chapter review. The learning screen decides which checkpoint a
  learning step brings up and which section the result goes to. The chapter path decides
  which chapters are unlocked (previous chapter at 70% or more) and where a review started
  from the banner is written.

Conventions of the model:

- `ProgressManager` is the class `Progress.ProgressManager`. Each of its fields stands for
  a group of UserDefaults keys. A chapter missing from `checkpoints` or `mastery` stands
  for a key that is absent or whose data does not decode.
- Time is integer seconds (`now`). Calendar days are integer day numbers (`today`).
- Requests to the notification service are appended to the ghost log `reminders` as a
  (title, delay) pair.
- The decay factor `exp(-h/48)` is a parameter. The lemmas about it assume only that it is
  1 at `h = 0`, lies in (0, 1] for `h >= 0`, and does not increase with `h`
  (`WordMemory.IsDecayFactor`).
- The random jitter of `nextReviewDate` is a parameter in [-0.1, 0.1].
- Chapter word lists, loaded from the app bundle by the source, are parameters (`words`,
  `content`).
- `WordMemoryState` is a Swift value type. Its `mutating` methods are modelled as functions
  from the old record to the new one. The manager's methods write the result back into the
  list, as the source writes it back into an array element.
- SwiftUI `@State` fields of the views become the fields of the classes
  `ReviewSessionView.ReviewSession`, `FinalChapterReviewView.FinalReview` and
  `WordLearningView.WordLearningScreen`. `ProgressManager.shared` is an object they hold.

The model keeps these behaviours of the code as written:

- `currentSection` is not clamped to 0–9. Progress 1.0 gives section index 10, and the
  learning screen then brings up no review (`Thresholds.SectionOfFullProgress`,
  `WordLearningView.FullProgressTriggersNothing`).
- Decay is not idempotent. `lastReviewed` is not touched, so every weak-word query decays
  the stored confidences again (`WordMemory.RepeatedDecayCompounds`).
- Finishing a final review marks the chapter mastered whatever the score
  (`FinalChapterReviewView.FinalReview.FinishReview`).
- A review started from the banner always writes section 1
  (`ChapterPathView.CompleteBannerReview`, `ChapterPathView.BannerReviewKeepsLaterPending`).
- `resetAllProgress` keeps the word memory records and the mastery records
  (`Progress.ProgressManager.ResetAllProgress`).
- The learning screen's progress is the size of the global learned set over the chapter's
  word count, so it can exceed 1.

## Model

| member | source | states |
|---|---|---|
| Chapters.Index | Patente-Learning/Patente-Learning/Utils/ChapterList.swift:10-20 | a chapter's position in `allCases`: the list holds the chapter there and not earlier |
| Chapters.AllChaptersDistinct | Patente-Learning/Patente-Learning/Utils/ChapterList.swift:10-20 | `allCases` lists each of the ten chapters once |
| Search.FirstIndex | Patente-Learning/Patente-Learning/Utils/ProgressManager.swift:72 | `firstIndex(where:)`: the first position from `i` on whose element satisfies the test, with none before it; none exactly when no element from `i` on does |
| Checkpoints.BlankCheckpoints | Patente-Learning/Patente-Learning/Utils/ProgressManager.swift:49-53 | the ten created checkpoints are sections 1..10 in order, open, unscheduled and unscored |
| Checkpoints.PassedCheckpoints | Patente-Learning/Patente-Learning/Utils/ProgressManager.swift:403-405 | the ten checkpoints stored by the unlock-all action are sections 1..10, completed, unscheduled, scored 1.0 |
| Checkpoints.FirstIndexOfSection | Patente-Learning/Patente-Learning/Utils/ProgressManager.swift:72 | the index of the first checkpoint with the section, or none exactly when no checkpoint has it |
| Checkpoints.IsDue | Patente-Learning/Patente-Learning/Utils/ProgressManager.swift:115-118 | a checkpoint is due when it is not completed and either has no scheduled date or one no later than now; its partners are `PassedIsNeverDue` and `FailedIsDueAtRetry` |
| Checkpoints.SectionPosition | Patente-Learning/Patente-Learning/Utils/ProgressManager.swift:16-22 | in a well-formed list, section s (1..10) is found at index s-1 |
| Checkpoints.Recorded | Patente-Learning/Patente-Learning/Utils/ProgressManager.swift:74-97 | pass: completed and unscheduled; fail: open and scheduled at now + retry interval; the score is recorded on both |
| Checkpoints.AfterUpdate | Patente-Learning/Patente-Learning/Utils/ProgressManager.swift:68-100 | only the first checkpoint of the section changes, as `Recorded`; no such checkpoint leaves the list as it was; well-formedness is kept |
| Checkpoints.FirstDue | Patente-Learning/Patente-Learning/Utils/ProgressManager.swift:113-121 | the first index whose checkpoint is open and unscheduled or due; none exactly when no checkpoint is |
| Checkpoints.Pending | Patente-Learning/Patente-Learning/Utils/ProgressManager.swift:105-124 | nothing at progress <= 0; otherwise a checkpoint exactly when one is open and due, and it is one of them |
| Checkpoints.PendingIsFirstDue | Patente-Learning/Patente-Learning/Utils/ProgressManager.swift:105-124 | with positive progress, the pending checkpoint sits at a due position with no due checkpoint before it: it is the first due one |
| Checkpoints.PassedIsNeverDue | Patente-Learning/Patente-Learning/Utils/ProgressManager.swift:74-76 | a passed checkpoint is never due again, at any time |
| Checkpoints.FailedIsDueAtRetry | Patente-Learning/Patente-Learning/Utils/ProgressManager.swift:77-81 | a failed checkpoint is due exactly from now + retry interval on |
| Checkpoints.FreshFailScenario | Patente-Learning/Patente-Learning/Utils/ProgressManager.swift:68-100 | failing section 3 of fresh checkpoints with 0.4 changes only checkpoint 3, to open, scheduled at the retry, scored 0.4 |
| Checkpoints.SectionOneUpdateKeepsLaterPending | Patente-Learning/Patente-Learning/Utils/ProgressManager.swift:68-124 | with a positive retry interval, writing section 1 keeps a later first-due checkpoint first-due |
| Thresholds.PassingThreshold | Patente-Learning/Patente-Learning/Utils/ProgressManager.swift:129-136 | 0.6 on [0, 0.3), 0.75 on [0.3, 0.7), 0.85 on [0.7, 0.9), 0.9 otherwise, negative progress included |
| Thresholds.ThresholdMonotone | Patente-Learning/Patente-Learning/Utils/ProgressManager.swift:129-136 | the threshold does not decrease on [0, ∞) and stays within [0.6, 0.9] |
| Thresholds.TruncateToInt | Patente-Learning/Patente-Learning/Utils/ProgressManager.swift:140 | `Int(x)` truncates toward zero, for either sign |
| Thresholds.CurrentSection | Patente-Learning/Patente-Learning/Utils/ProgressManager.swift:139-141 | for progress >= 0, the largest integer not above progress × 10 |
| Thresholds.SectionBelowFullProgress | Patente-Learning/Patente-Learning/Utils/ProgressManager.swift:139-141 | progress in [0, 1) gives an index in 0..9 |
| Thresholds.SectionOfFullProgress | Patente-Learning/Patente-Learning/Utils/ProgressManager.swift:139-141 | progress 1.0 gives 10: the index is not clamped |
| Thresholds.SectionMonotone | Patente-Learning/Patente-Learning/Utils/ProgressManager.swift:139-141 | more progress never gives a lower index |
| Thresholds.LearnedCount | Patente-Learning/Patente-Learning/Utils/ProgressManager.swift:161 | the count of a chapter's learned words is at most the word count, equals it exactly when all are learned, is 0 exactly when none is |
| Thresholds.LearnedCountIsPositionCount | Patente-Learning/Patente-Learning/Utils/ProgressManager.swift:161 | the count is exactly the number of positions of the chapter's list whose word is learned |
| Thresholds.ChapterProgress | Patente-Learning/Patente-Learning/Utils/ProgressManager.swift:152-163 | a chapter with words has progress × word count = learned count; the progress lies in [0, 1], is 1 exactly when the chapter has words and all are learned, 0 exactly when none is (so 0 for an empty chapter) |
| WordMemory.UpdatePerformance | Patente-Learning/Patente-Learning/Models/WordMemoryState.swift:18-27 | correct: +1 correct, confidence min(1, c + 0.15); wrong: +1 incorrect, max(0, c - 0.25); word kept, reviewed now; [0, 1] kept |
| WordMemory.CorrectThenWrongLoses | Patente-Learning/Patente-Learning/Models/WordMemoryState.swift:18-27 | a correct answer followed by a wrong one never leaves confidence higher than before |
| WordMemory.ApplyDecay | Patente-Learning/Patente-Learning/Models/WordMemoryState.swift:29-33 | confidence becomes exactly max(0, c × factor): never negative, never raised by a factor in [0, 1], strictly lowered from a positive value by a factor in (0, 1), kept in [0, 1]; word, time and counts unchanged; identity at factor 1 |
| WordMemory.DecayAt | Patente-Learning/Patente-Learning/Models/WordMemoryState.swift:29-33 | `applyDecay()` at time `now`: the factor of the hours since `lastReviewed` applied to confidence; `DecayAtReviewTimeIsIdentity`, `DecayNonIncreasingInTime` and `RepeatedDecayCompounds` state its properties |
| WordMemory.DecayAtReviewTimeIsIdentity | Patente-Learning/Patente-Learning/Models/WordMemoryState.swift:29-33 | decay at zero elapsed hours leaves the record unchanged |
| WordMemory.DecayNonIncreasingInTime | Patente-Learning/Patente-Learning/Models/WordMemoryState.swift:29-33 | decaying later never leaves more confidence than decaying earlier |
| WordMemory.ApplyDecayTwice | Patente-Learning/Patente-Learning/Models/WordMemoryState.swift:29-33 | decaying twice by k is decaying once by k × k |
| WordMemory.RepeatedDecayCompounds | Patente-Learning/Patente-Learning/Utils/ProgressManager.swift:251-254 | a second decay at the same time lowers confidence again, since the elapsed time is unchanged |
| MemoryBook.IndexOfWord | Patente-Learning/Patente-Learning/Utils/ProgressManager.swift:218 | the first record of the word, or none exactly when no record has it |
| MemoryBook.FirstRecord | Patente-Learning/Patente-Learning/Utils/ProgressManager.swift:221-222 | a new word starts at 0.5 (correct) or 0.3 (wrong) and is updated once: 0.65 with counts 1/0, or 0.05 with counts 0/1 |
| MemoryBook.Answered | Patente-Learning/Patente-Learning/Utils/ProgressManager.swift:216-226 | a known word's first record is updated in place and nothing else changes; an unknown word appends one record; unique words and [0, 1] confidences are kept |
| MemoryBook.BaseInterval | Patente-Learning/Patente-Learning/Utils/ProgressManager.swift:235-241 | 6 h below 0.3, 12 h below 0.6, 24 h below 0.8, 48 h otherwise, negative confidence included |
| MemoryBook.BaseIntervalMonotone | Patente-Learning/Patente-Learning/Utils/ProgressManager.swift:235-241 | higher confidence never shortens the interval |
| MemoryBook.NextReviewTime | Patente-Learning/Patente-Learning/Utils/ProgressManager.swift:229-246 | unknown word: now + 6 h; known word: last review + base × (1 + jitter), within [0.9, 1.1] × base and after the last review |
| MemoryBook.Weak | Patente-Learning/Patente-Learning/Utils/ProgressManager.swift:257 | exactly the records below the threshold, with their multiplicities |
| MemoryBook.Insert | Patente-Learning/Patente-Learning/Utils/ProgressManager.swift:258 | inserting into an ascending list keeps it ascending and adds exactly the record |
| MemoryBook.SortByConfidence | Patente-Learning/Patente-Learning/Utils/ProgressManager.swift:258 | an ascending permutation of the records |
| MemoryBook.Take | Patente-Learning/Patente-Learning/Utils/ProgressManager.swift:259 | the first min(limit, count) records |
| MemoryBook.WeakSelection | Patente-Learning/Patente-Learning/Utils/ProgressManager.swift:256-260 | filter below the threshold, sort ascending, take `limit`; `WeakSelectionBounds` and `WeakSelectionIsWeakest` state what the result is |
| MemoryBook.WeakSelectionBounds | Patente-Learning/Patente-Learning/Utils/ProgressManager.swift:248-261 | exactly `min(limit, number of weak records)` records, each below the threshold, ascending, all drawn from the list |
| MemoryBook.WeakSelectionIsWeakest | Patente-Learning/Patente-Learning/Utils/ProgressManager.swift:248-261 | every weak record left out is at least as confident as every record returned |
| Activity.Logged | Patente-Learning/Patente-Learning/Utils/ProgressManager.swift:166-174 | today's count goes up by one, from 0 when absent; no other day changes |
| Activity.Window | Patente-Learning/Patente-Learning/Utils/ProgressManager.swift:180-195 | seven entries, oldest first, ending today, each with that day's count or 0 |
| Activity.TotalLastDiffers | Patente-Learning/Patente-Learning/Utils/ProgressManager.swift:180-195 | two windows differing only on their last day differ in total by that day's difference |
| Activity.LoggingAddsOneToWeek | Patente-Learning/Patente-Learning/Utils/ProgressManager.swift:166-195 | logging today adds one to today's bar and to the weekly total |
| Activity.StreakStep | Patente-Learning/Patente-Learning/Utils/ProgressManager.swift:436-475 | same day: nothing; next day: +1; first day: 1; any other gap: 1 plus one reminder; then best = max(best, current), today recorded; best >= current kept |
| Activity.ConsecutiveDaysExtendStreak | Patente-Learning/Patente-Learning/Utils/ProgressManager.swift:436-475 | n consecutive active days lengthen the streak by exactly n, best keeping up |
| Activity.StreakScenarios | Patente-Learning/Patente-Learning/Utils/ProgressManager.swift:453-463 | one day after: streak + 1, no reminder; three days after: 1 with a reminder |
| Mastery.Marked | Patente-Learning/Patente-Learning/Utils/ProgressManager.swift:307-316 | afterwards the chapter is mastered and attempted, with that score and time; other chapters unchanged |
| Mastery.IsMastered | Patente-Learning/Patente-Learning/Utils/ProgressManager.swift:318-324 | false without a record, otherwise the record's flag; `Marked` makes it true |
| Mastery.HasAttempted | Patente-Learning/Patente-Learning/Utils/ProgressManager.swift:326-332 | a final review was attempted when the chapter has a record with a score; `Marked` makes it true |
| Mastery.MarkLastWriteWins | Patente-Learning/Patente-Learning/Utils/ProgressManager.swift:307-316 | marking again overwrites the earlier record |
| Mastery.Scores | Patente-Learning/Patente-Learning/Utils/ProgressManager.swift:352-357 | at most one score per chapter, empty exactly when no chapter has one; `ScoresCount`, `ScoresInOrder` and `ScoresAreRecorded` state that it is the recorded scores in chapter order |
| Mastery.ScoresCount | Patente-Learning/Patente-Learning/Utils/ProgressManager.swift:352-357 | the list is exactly as long as the number of chapters with a recorded score |
| Mastery.ScoresInOrder | Patente-Learning/Patente-Learning/Utils/ProgressManager.swift:352-357 | chapter order: the score of the i-th chapter, when it has one, is the entry right after the scores of the chapters before it; with `ScoresCount` this fixes every entry, repeated scores included |
| Mastery.ScoresAreRecorded | Patente-Learning/Patente-Learning/Utils/ProgressManager.swift:352-357 | every listed score is some listed chapter's recorded score, and every such recorded score is listed |
| Mastery.AverageScore | Patente-Learning/Patente-Learning/Utils/ProgressManager.swift:351-361 | 0 with no scores; otherwise average × count = sum of the scores |
| Mastery.ScoresListWithin | Patente-Learning/Patente-Learning/Utils/ProgressManager.swift:352-357 | scores within [lo, hi] in the ledger stay within it in the list |
| Mastery.SumWithin | Patente-Learning/Patente-Learning/Utils/ProgressManager.swift:360 | the sum of n values within [lo, hi] lies within [n × lo, n × hi] |
| Mastery.AverageWithin | Patente-Learning/Patente-Learning/Utils/ProgressManager.swift:351-361 | when some score exists, the average lies within any bounds all scores respect |
| Progress.RetryReminders | Patente-Learning/Patente-Learning/Utils/ProgressManager.swift:88-93 | at most one reminder; exactly when an existing section fails it is the reminder titled "Review Ready" with delay max(0, retry interval) and nothing else |
| Progress.LoadedCheckpoints | Patente-Learning/Patente-Learning/Utils/ProgressManager.swift:43-56 | the stored list or ten blank checkpoints: well formed whenever every stored list is |
| Progress.InitialisingKeepsContents | Patente-Learning/Patente-Learning/Utils/ProgressManager.swift:43-56 | lazy initialisation never changes what any chapter's checkpoints read as |
| Progress.AllWords | Patente-Learning/Patente-Learning/Utils/ProgressManager.swift:385-388 | the collected words are exactly those of the chapters visited |
| Progress.UnlockedHasNothingPending | Patente-Learning/Patente-Learning/Utils/ProgressManager.swift:383-413 | with every chapter's checkpoints passed, the scan of `nextPendingReview` finds no chapter with a pending review, whatever the progress and the time |
| Progress.FirstSome | Patente-Learning/Patente-Learning/Utils/ProgressManager.swift:373-380 | the scan's answer: the first position from `i` on holding a result, with none before it; none exactly when every position from `i` on is empty |
| Progress.ProgressManager.constructor | Patente-Learning/Patente-Learning/Utils/ProgressManager.swift:27-33 | empty storage; the retry interval is 60 s (DEBUG build) or 24 h (release build), so the manager's invariant holds with a positive interval |
| Progress.ProgressManager.ReviewCheckpoints | Patente-Learning/Patente-Learning/Utils/ProgressManager.swift:43-57 | the stored list, or ten blank checkpoints that are stored first |
| Progress.ProgressManager.UpdateCheckpoint | Patente-Learning/Patente-Learning/Utils/ProgressManager.swift:68-100 | stores `AfterUpdate` of the chapter's checkpoints and appends `RetryReminders` to the reminder log |
| Progress.ProgressManager.NextPendingCheckpoint | Patente-Learning/Patente-Learning/Utils/ProgressManager.swift:105-124 | returns `Pending` for the chapter's progress; storage changes only by lazy initialisation |
| Progress.ProgressManager.NextPendingReview | Patente-Learning/Patente-Learning/Utils/ProgressManager.swift:373-380 | the chapter at `FirstSome` of the per-chapter `Pending` results (the first in `allCases` order with a pending checkpoint), with that checkpoint; none when no chapter has one; exactly the chapters scanned, up to and including the one returned, are lazily initialised; the banner of the chapter path (Views/ChapterPathView.swift:163-170) runs the same scan |
| Progress.ProgressManager.UpdateMemoryState | Patente-Learning/Patente-Learning/Utils/ProgressManager.swift:216-226 | stores `Answered` of the record list |
| Progress.ProgressManager.WeakWords | Patente-Learning/Patente-Learning/Utils/ProgressManager.swift:248-274 | stores every record decayed, in place, and returns the weak selection of the decayed list; `weakWords` and `weakMemoryWords` have the same body |
| Progress.ProgressManager.LogDailyLearningActivity | Patente-Learning/Patente-Learning/Utils/ProgressManager.swift:166-174 | stores `Logged` of the activity log |
| Progress.ProgressManager.WeeklyActivity | Patente-Learning/Patente-Learning/Utils/ProgressManager.swift:180-195 | returns `Window` of the activity log, changing nothing; `fetchWeeklyActivity` (lines 416-428) builds the same seven entries |
| Progress.ProgressManager.UpdateStreak | Patente-Learning/Patente-Learning/Utils/ProgressManager.swift:436-475 | stores `StreakStep` of the streak, appends its reminder, keeps 0 <= current <= best |
| Progress.ProgressManager.MarkChapterAsMastered | Patente-Learning/Patente-Learning/Utils/ProgressManager.swift:307-316 | stores `Marked` of the ledger |
| Progress.ProgressManager.ResetAllProgress | Patente-Learning/Patente-Learning/Utils/ProgressManager.swift:492-528 | clears learned words, streak, activity and every chapter's checkpoints; keeps memory records, mastery and the reminder log |
| Progress.ProgressManager.ResetWeeklyActivity | Patente-Learning/Patente-Learning/Utils/ProgressManager.swift:198-200 | the activity log becomes empty |
| Progress.ProgressManager.UnlockAllChaptersForTesting | Patente-Learning/Patente-Learning/Utils/ProgressManager.swift:383-413 | every chapter mastered with 1.0 and ten passed checkpoints; the learned words become exactly the words of all chapters |
| Learning.LastIndex | Patente-Learning/Patente-Learning/ViewModels/LearningViewModel.swift:62 | max(0, count - 1) |
| Learning.FirstUnlearned | Patente-Learning/Patente-Learning/ViewModels/LearningViewModel.swift:58 | the first word not learned, or none exactly when all are learned |
| Learning.StartingIndex | Patente-Learning/Patente-Learning/ViewModels/LearningViewModel.swift:56-64 | the first unlearned word, or max(0, count - 1) when all are learned; always in bounds |
| Learning.Advanced | Patente-Learning/Patente-Learning/ViewModels/LearningViewModel.swift:26-30 | one step forward below count - 1, otherwise no move |
| Learning.Retreated | Patente-Learning/Patente-Learning/ViewModels/LearningViewModel.swift:32-36 | one step back above 0, otherwise no move |
| Learning.MovesStayInBounds | Patente-Learning/Patente-Learning/ViewModels/LearningViewModel.swift:26-36 | both moves keep the cursor in [0, max(0, count - 1)] |
| Learning.MovesUndoEachOther | Patente-Learning/Patente-Learning/ViewModels/LearningViewModel.swift:26-36 | away from the ends, a step back undoes a step forward and vice versa |
| Learning.LearningViewModel.constructor | Patente-Learning/Patente-Learning/ViewModels/LearningViewModel.swift:16-20 | loads the global learned set and starts at `StartingIndex` |
| Learning.LearningViewModel.SetStartingIndex | Patente-Learning/Patente-Learning/ViewModels/LearningViewModel.swift:56-64 | moves the cursor to `StartingIndex` |
| Learning.LearningViewModel.CurrentWord | Patente-Learning/Patente-Learning/ViewModels/LearningViewModel.swift:22-24 | the word under the cursor, one of the list's words |
| Learning.LearningViewModel.NextWord | Patente-Learning/Patente-Learning/ViewModels/LearningViewModel.swift:26-30 | moves as `Advanced`, staying in bounds |
| Learning.LearningViewModel.PreviousWord | Patente-Learning/Patente-Learning/ViewModels/LearningViewModel.swift:32-36 | moves as `Retreated`, staying in bounds |
| Learning.LearningViewModel.MarkAsLearned | Patente-Learning/Patente-Learning/ViewModels/LearningViewModel.swift:38-42 | adds the current word (a no-op when present), overwrites the stored set with it, then advances |
| Quiz.Score | Patente-Learning/Patente-Learning/Views/ReviewSessionView.swift:133 | correct / total, in [0, 1] when correct <= total |
| Quiz.PassedIffEnoughCorrect | Patente-Learning/Patente-Learning/Views/ReviewSessionView.swift:209-210 | a session passes exactly when correct >= threshold × total |
| Quiz.ExtremesDecide | Patente-Learning/Patente-Learning/Views/ReviewSessionView.swift:132-136 | all correct always passes; none correct always fails |
| Quiz.PassedMonotoneInCorrect | Patente-Learning/Patente-Learning/Views/ReviewSessionView.swift:132-136 | more correct answers never turn a pass into a fail |
| Quiz.EarlierProgressIsLenient | Patente-Learning/Patente-Learning/Views/ReviewSessionView.swift:134 | a result that passes at some progress passes at any lower progress |
| Quiz.ThreeOfFiveScenario | Patente-Learning/Patente-Learning/Views/ReviewSessionView.swift:132-136 | 3 of 5 passes at progress 0.1 and fails at 0.95 |
| ReviewSessionView.ReviewSession.constructor | Patente-Learning/Patente-Learning/Views/ReviewSessionView.swift:15-20 | first question, nothing counted, selected or shown |
| ReviewSessionView.ReviewSession.SelectOption | Patente-Learning/Patente-Learning/Views/ReviewSessionView.swift:160-164 | the first tap selects and answers; later taps change nothing |
| ReviewSessionView.ReviewSession.NextQuestion | Patente-Learning/Patente-Learning/Views/ReviewSessionView.swift:118-130 | no selection: nothing changes; else +1 exactly on an exact match, then next question with selection cleared, or results at the last one; correct <= graded <= count kept |
| ReviewSessionView.ReviewSession.HandleCompletion | Patente-Learning/Patente-Learning/Views/ReviewSessionView.swift:132-136 | all questions graded; score = correct / count in [0, 1]; passed exactly when score >= threshold of the session's progress |
| FinalChapterReviewView.FinalReview.constructor | Patente-Learning/Patente-Learning/Views/FinalChapterReviewView.swift:13-19 | first question, nothing counted, not finished, score 0 |
| FinalChapterReviewView.FinalReview.SelectOption | Patente-Learning/Patente-Learning/Views/ReviewSessionView.swift:160-164 | the shared option button: first tap selects and answers |
| FinalChapterReviewView.FinalReview.NextQuestion | Patente-Learning/Patente-Learning/Views/FinalChapterReviewView.swift:109-121 | no selection: nothing changes; else +1 exactly on an exact match, then next question, or the review finishes at the last one |
| FinalChapterReviewView.FinalReview.FinishReview | Patente-Learning/Patente-Learning/Views/FinalChapterReviewView.swift:123-127 | score = correct / count; finished; chapter marked mastered with that score, whatever it is |
| WordLearningView.TriggersReview | Patente-Learning/Patente-Learning/Views/WordLearningView.swift:205-214 | a review comes up when the section index is within the list and its checkpoint is not completed, whatever its schedule; the four lemmas below state when |
| WordLearningView.FullProgressTriggersNothing | Patente-Learning/Patente-Learning/Views/WordLearningView.swift:205-209 | at progress >= 1 the index is 10 or more and no review comes up |
| WordLearningView.ResultLandsOnTriggeringCheckpoint | Patente-Learning/Patente-Learning/Views/WordLearningView.swift:217-226 | below full progress, section index + 1 is the checkpoint at that index |
| WordLearningView.PassedReviewIsNotTriggeredAgain | Patente-Learning/Patente-Learning/Views/WordLearningView.swift:212-214 | after a pass, the same progress no longer brings that review up |
| WordLearningView.FailedReviewIsTriggeredAgain | Patente-Learning/Patente-Learning/Views/WordLearningView.swift:212-214 | after a fail, the same progress brings that review up again |
| WordLearningView.WordLearningScreen.constructor | Patente-Learning/Patente-Learning/Views/WordLearningView.swift:17-21 | no progress computed, no review shown; given a valid view model with words over a valid manager, the screen's invariant holds |
| WordLearningView.WordLearningScreen.EvaluateProgressAndTriggerReview | Patente-Learning/Patente-Learning/Views/WordLearningView.swift:200-215 | progress = global learned count / word count; review shown exactly when the checkpoint at the index exists and is open; checkpoints lazily initialised |
| WordLearningView.WordLearningScreen.HandleReviewCompletion | Patente-Learning/Patente-Learning/Views/WordLearningView.swift:217-226 | result written to section index + 1; session hidden |
| WordLearningView.WordLearningScreen.MarkAsLearnedTapped | Patente-Learning/Patente-Learning/Views/WordLearningView.swift:153-168 | mark and advance, log today, update streak, evaluate review, then a correct answer for the word now under the cursor: the next word unless on the last |
| ChapterPathView.IsChapterUnlocked | Patente-Learning/Patente-Learning/Views/ChapterPathView.swift:151-159 | the first chapter is unlocked; another is unlocked when the previous chapter's entry, 0 when missing, is at least 0.7; the unlock lemmas below state its properties |
| ChapterPathView.AllChapterProgress | Patente-Learning/Patente-Learning/Utils/ProgressManager.swift:539-545 | every chapter has an entry, and that entry is the chapter's `ChapterProgress`, in [0, 1] |
| ChapterPathView.FirstChapterAlwaysUnlocked | Patente-Learning/Patente-Learning/Views/ChapterPathView.swift:154 | the first chapter is unlocked for any progress map |
| ChapterPathView.UnlockNeedsPreviousEntry | Patente-Learning/Patente-Learning/Views/ChapterPathView.swift:156-158 | any other chapter is unlocked exactly when the previous one has an entry >= 0.7; a missing entry locks it |
| ChapterPathView.UnlockMonotone | Patente-Learning/Patente-Learning/Views/ChapterPathView.swift:151-159 | more progress never locks an unlocked chapter |
| ChapterPathView.FinishingAChapterUnlocksTheNext | Patente-Learning/Patente-Learning/Views/ChapterPathView.swift:151-159 | learning every word of a non-empty chapter unlocks the next |
| ChapterPathView.NextUnlockedIffSeventyPercent | Patente-Learning/Patente-Learning/Views/ChapterPathView.swift:151-159 | with the map of `allChapterProgress()`, the chapter after the i-th is unlocked exactly when the i-th has words and its learned count is at least 0.7 × its word count |
| ChapterPathView.EverythingLearnedUnlocksAll | Patente-Learning/Patente-Learning/Views/ChapterPathView.swift:151-159 | with all words learned and no chapter empty, every chapter is unlocked |
| ChapterPathView.CompleteBannerReview | Patente-Learning/Patente-Learning/Views/ChapterPathView.swift:171-185 | the banner review's result always goes to section 1; its pass was decided at progress 0.0, against the threshold 0.6 |
| ChapterPathView.BannerReviewKeepsLaterPending | Patente-Learning/Patente-Learning/Views/ChapterPathView.swift:180-185 | so a pending checkpoint of a later section stays pending after the banner review, passed or failed |

## Left out

- Persistence: UserDefaults and JSON encoding are in-memory fields. A failed decode is an absent entry.
- Notification delivery: `NotificationManager` and the daily reminder in the settings screen are left out. Only the requests are logged.
- Calendar and formatting: `Date`, `Calendar` day arithmetic and the "yyyy-MM-dd" keys are integer seconds and day numbers.
- Floating point: reals replace `Double`. `exp` is not computed; its decay factor is a parameter.
- Randomness: question generation, shuffling and `randomElement` are left out. Questions are given; the jitter is a parameter.
- Content loading: `JSONLoader` and the bundle lookups are left out. Word lists are parameters.
- Progress.ProgressManager.WeakWords: Swift's `sorted(by:)` is not guaranteed to be stable, so the source leaves the order of records of equal confidence open; the model's insertion sort keeps such records in list order, one of the orders the source allows. No proved property (length, weakness, ascending order, weakest first, records from the list) mentions the order among equal confidences. The default arguments `threshold = 0.5` and `limit = 10` are the constants `Progress.DefaultWeakThreshold` and `Progress.DefaultWeakLimit`; the method takes both as parameters.
- Progress.ProgressManager.WeakWords: a negative `limit` traps in the source; the model requires `limit >= 0`.
- Learning.LearningViewModel.MarkAsLearned: `currentWord` traps on an empty word list; the model requires a non-empty one.
- WordLearningView.WordLearningScreen.MarkAsLearnedTapped: the delayed launch of the final review or the completion summary at the last word is UI dispatch and is left out.
- ReviewSessionView.ReviewSession.NextQuestion and FinalChapterReviewView.FinalReview.NextQuestion: they require the question screen (not the results) and a non-empty question list, as the source shows the button only then.
- `resetReviews`, `translation(for:)`, `totalLearnedWords`, `totalChaptersMastered`, `averageRecallAccuracy`, `lastActiveDate`/`updateLastActiveDate` and `refreshAllProgressCache` are outside the modelled core.
- `LearningViewModel.generateRecallQuestions` is random question generation and is left out.
- `RecallModeView` and `TargetedRecallView` advance through delayed dispatch and Foundation string handling; `ChapterSelectionView` is commented out. None is modelled.
- All SwiftUI layout, animation, haptics, theming, profile editing, export and sharing are left out.
