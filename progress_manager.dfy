/**
 * `final class ProgressManager` (Utils/ProgressManager.swift), the facade over the
 * persisted progress state.
 *
 * Each field stands for one group of UserDefaults keys; a chapter missing from
 * `checkpoints` or `mastery` stands for a key that is absent or whose data does not
 * decode. Time is passed in as integer seconds (`now`) and calendar day numbers
 * (`today`); chapter word lists, which the source loads from the app bundle, are passed
 * in as `words` / `content`. Reminder requests sent to the notification service are
 * recorded in the ghost log `reminders`.
 */
module Progress {
  import opened Options
  import opened Search
  import opened Chapters
  import opened Checkpoints
  import opened WordMemory
  import opened MemoryBook
  import opened Thresholds
  import opened Activity
  import opened Mastery

  /** A reminder request: its title and its delay in seconds. */
  datatype Reminder = Reminder(title: string, delay: int)

  /** `reviewRetryInterval` in DEBUG builds and in release builds. */
  const DebugRetryInterval: int := 60
  const ReleaseRetryInterval: int := 24 * 60 * 60

  const ReviewReadyTitle: string := "Review Ready"
  const StreakReminderTitle: string := "Don't lose your momentum!"
  const StreakReminderDelay: int := 5

  /** The default arguments of `weakWords(threshold:limit:)` and `weakMemoryWords`. */
  const DefaultWeakThreshold: real := 0.5
  const DefaultWeakLimit: int := 10

  /**
   * The checkpoints stored for `c`, or the blank ten when none are stored; either way a
   * well-formed list when every stored list is.
   */
  function LoadedCheckpoints(stored: map<Chapter, seq<Checkpoint>>, c: Chapter): (r: seq<Checkpoint>)
    ensures (forall d :: d in stored ==> WellFormed(stored[d])) ==> WellFormed(r)
  {
    if c in stored then stored[c] else BlankCheckpoints()
  }

  /**
   * The reminders `updateCheckpoint` requests: one "Review Ready" after
   * `max(0, retryInterval)` seconds when an existing section fails, none otherwise.
   */
  function RetryReminders(cps: seq<Checkpoint>, section: int, passed: bool, retryInterval: int): (r: seq<Reminder>)
    ensures |r| <= 1
    ensures |r| == 1 <==> FirstIndexOfSection(cps, section).Some? && !passed
    ensures |r| == 1 ==> r[0].title == ReviewReadyTitle && r[0].delay >= 0 && r[0].delay >= retryInterval
    ensures |r| == 1 ==> r[0] == Reminder(ReviewReadyTitle, if retryInterval >= 0 then retryInterval else 0)
  {
    if FirstIndexOfSection(cps, section).Some? && !passed
    then [Reminder(ReviewReadyTitle, if retryInterval >= 0 then retryInterval else 0)]
    else []
  }

  /** The stored checkpoints after the lazy initialisation of the first `n` chapters. */
  function InitialisedUpTo(stored: map<Chapter, seq<Checkpoint>>, n: nat): map<Chapter, seq<Checkpoint>>
    requires n <= |AllChapters|
  {
    if n == 0 then stored
    else
      var m := InitialisedUpTo(stored, n - 1);
      m[AllChapters[n - 1] := LoadedCheckpoints(m, AllChapters[n - 1])]
  }

  /** Lazy initialisation changes storage but not what any chapter's checkpoints read as. */
  lemma {:induction false} InitialisingKeepsContents(stored: map<Chapter, seq<Checkpoint>>, n: nat, c: Chapter)
    requires n <= |AllChapters|
    ensures LoadedCheckpoints(InitialisedUpTo(stored, n), c) == LoadedCheckpoints(stored, c)
  {
    if n > 0 {
      InitialisingKeepsContents(stored, n - 1, c);
    }
  }

  /**
   * What `nextPendingCheckpoint(for:)` finds for the `j`-th chapter of `allCases` in
   * `stored`, given the learned set.
   */
  function PendingInChapter(stored: map<Chapter, seq<Checkpoint>>, learned: set<string>,
                            content: Chapter -> seq<string>, j: nat, now: int): Option<Checkpoint>
    requires j < |AllChapters|
  {
    var c := AllChapters[j];
    Pending(LoadedCheckpoints(stored, c), ChapterProgress(content(c), learned), now)
  }

  /** What `nextPendingCheckpoint(for:)` finds for each chapter, in `allCases` order. */
  function PendingByChapter(stored: map<Chapter, seq<Checkpoint>>, learned: set<string>,
                            content: Chapter -> seq<string>, now: int): (r: seq<Option<Checkpoint>>)
    ensures |r| == |AllChapters|
  {
    seq(|AllChapters|, j requires 0 <= j < |AllChapters| => PendingInChapter(stored, learned, content, j, now))
  }

  /** The `i`-th entry of `PendingByChapter`, spelled out. */
  lemma PendingByChapterAt(stored: map<Chapter, seq<Checkpoint>>, learned: set<string>,
                           content: Chapter -> seq<string>, now: int, i: nat)
    requires i < |AllChapters|
    ensures PendingByChapter(stored, learned, content, now)[i]
         == Pending(LoadedCheckpoints(stored, AllChapters[i]), ChapterProgress(content(AllChapters[i]), learned), now)
  {
  }

  /** One step of the search: a `Some` at `i` is the answer, a `None` passes it on. */
  lemma FirstSomeStep<T>(s: seq<Option<T>>, i: nat)
    requires i < |s|
    ensures s[i].Some? ==> FirstSome(s, i) == Some(i)
    ensures s[i].None? ==> FirstSome(s, i) == FirstSome(s, i + 1)
  {
  }

  /** The position of the first `Some` in `s` from position `i` on. */
  function FirstSome<T>(s: seq<Option<T>>, i: nat): (r: Option<nat>)
    requires i <= |s|
    ensures r.Some? ==>
      && i <= r.value < |s|
      && s[r.value].Some?
      && forall j :: i <= j < r.value ==> s[j].None?
    ensures r.None? <==> forall j :: i <= j < |s| ==> s[j].None?
  {
    FirstIndex(s, (o: Option<T>) => o.Some?, i)
  }

  /** The words of the first `n` chapters, in chapter order. */
  function AllWords(content: Chapter -> seq<string>, n: nat): (r: seq<string>)
    requires n <= |AllChapters|
    ensures forall w :: w in r <==> exists j :: 0 <= j < n && w in content(AllChapters[j])
  {
    if n == 0 then []
    else AllWords(content, n - 1) + content(AllChapters[n - 1])
  }

  /**
   * Once every chapter stores ten passed checkpoints, as `unlockAllChaptersForTesting()`
   * leaves them, no chapter has a pending review, whatever the progress and the time.
   */
  lemma UnlockedHasNothingPending(stored: map<Chapter, seq<Checkpoint>>, learned: set<string>,
                                  content: Chapter -> seq<string>, now: int)
    requires forall c :: c in stored && stored[c] == PassedCheckpoints()
    ensures FirstSome(PendingByChapter(stored, learned, content, now), 0).None?
  {
    var pending := PendingByChapter(stored, learned, content, now);
    forall j | 0 <= j < |pending|
      ensures pending[j].None?
    {
      PendingByChapterAt(stored, learned, content, now, j);
      var cps := stored[AllChapters[j]];
      assert forall i :: 0 <= i < |cps| ==> !IsDue(cps[i], now);
    }
  }

  class ProgressManager {
    /** `reviewRetryInterval`: 60 s in DEBUG builds, 24 h in release builds. */
    const retryInterval: int

    var checkpoints: map<Chapter, seq<Checkpoint>>   // "reviewCheckpoints_<chapter>"
    var memory: seq<MemoryState>                      // "wordMemoryStates"
    var activity: map<int, int>                       // "learningActivity"
    var currentStreak: int                            // "currentStreak"
    var bestStreak: int                               // "bestStreak"
    var lastActiveDay: Option<int>                    // "lastActiveDate"
    var mastery: Ledger                               // "mastery_<chapter>"
    var learnedWords: set<string>                     // "learnedWords"
    ghost var reminders: seq<Reminder>

    /**
     * The invariants every write keeps: best streak >= current streak >= 0, ten checkpoints
     * per chapter; the retry interval, fixed at construction, is positive.
     */
    ghost predicate Valid()
      reads this
    {
      && retryInterval > 0
      && 0 <= currentStreak <= bestStreak
      && forall c :: c in checkpoints ==> WellFormed(checkpoints[c])
    }

    /**
     * Empty storage; `UserDefaults.integer(forKey:)` reads an absent streak as 0. The retry
     * interval is the one of a DEBUG or of a release build.
     */
    constructor (retryInterval: int)
      requires retryInterval == DebugRetryInterval || retryInterval == ReleaseRetryInterval
      ensures Valid() && this.retryInterval == retryInterval
      ensures checkpoints == map[] && memory == [] && activity == map[]
      ensures currentStreak == 0 && bestStreak == 0 && lastActiveDay == None
      ensures mastery == map[] && learnedWords == {} && reminders == []
    {
      this.retryInterval := retryInterval;
      checkpoints, memory, activity := map[], [], map[];
      currentStreak, bestStreak, lastActiveDay := 0, 0, None;
      mastery, learnedWords, reminders := map[], {}, [];
    }

    /** The checkpoints of `c` as `reviewCheckpoints(for:)` would read them. */
    ghost function CheckpointsOf(c: Chapter): seq<Checkpoint>
      reads this
    {
      LoadedCheckpoints(checkpoints, c)
    }

    /**
     * `reviewCheckpoints(for:)`: the stored list, or ten blank checkpoints which are
     * stored before they are returned.
     */
    method ReviewCheckpoints(c: Chapter) returns (cps: seq<Checkpoint>)
      requires Valid()
      modifies this`checkpoints
      ensures Valid()
      ensures cps == old(CheckpointsOf(c)) && WellFormed(cps)
      ensures checkpoints == old(checkpoints)[c := cps]
      ensures c !in old(checkpoints) ==> cps == BlankCheckpoints()
    {
      if c in checkpoints {
        cps := checkpoints[c];
      } else {
        cps := BlankCheckpoints();
        checkpoints := checkpoints[c := cps];
      }
    }

    /**
     * `updateCheckpoint(for:section:passed:score:)` at time `now`: the first checkpoint
     * of `section` is passed or failed and scored; a failure schedules the retry and
     * sends one "Review Ready" reminder after `max(0, retryInterval)` seconds. Without
     * such a checkpoint only the lazy initialisation is stored.
     */
    method UpdateCheckpoint(c: Chapter, section: int, passed: bool, score: real, now: int)
      requires Valid()
      modifies this`checkpoints, this`reminders
      ensures Valid()
      ensures checkpoints ==
        old(checkpoints)[c := AfterUpdate(old(CheckpointsOf(c)), section, passed, score, now, retryInterval)]
      ensures reminders == old(reminders) + RetryReminders(old(CheckpointsOf(c)), section, passed, retryInterval)
    {
      var cps := ReviewCheckpoints(c);
      ghost var loaded := cps;
      ghost var sent := RetryReminders(loaded, section, passed, retryInterval);
      var found := FirstIndexOfSection(cps, section);
      if found.None? {
        assert sent == [];
        return;
      }
      var i := found.value;
      if passed {
        cps := cps[i := cps[i].(completed := true, scheduledDate := None)];
      } else {
        cps := cps[i := cps[i].(completed := false, scheduledDate := Some(now + retryInterval))];
        cps := cps[i := cps[i].(lastScore := Some(score))];
        var retryDelay := if retryInterval >= 0 then retryInterval else 0;
        reminders := reminders + [Reminder(ReviewReadyTitle, retryDelay)];
      }
      cps := cps[i := cps[i].(lastScore := Some(score))];
      assert cps == loaded[i := Recorded(loaded[i], passed, score, now, retryInterval)];
      assert cps == AfterUpdate(loaded, section, passed, score, now, retryInterval);
      assert reminders == old(reminders) + sent;
      checkpoints := checkpoints[c := cps];
    }

    /**
     * `nextPendingCheckpoint(for:)` for a chapter whose words are `words`: nothing when
     * the chapter has no progress, otherwise the first checkpoint in list order that is
     * incomplete and due at `now`. The checkpoints are lazily initialised first.
     */
    method NextPendingCheckpoint(c: Chapter, words: seq<string>, now: int) returns (r: Option<Checkpoint>)
      requires Valid()
      modifies this`checkpoints
      ensures Valid()
      ensures checkpoints == old(checkpoints)[c := old(CheckpointsOf(c))]
      ensures r == Pending(old(CheckpointsOf(c)), ChapterProgress(words, learnedWords), now)
    {
      var cps := ReviewCheckpoints(c);
      var progress := ChapterProgress(words, learnedWords);
      if !(progress > 0.0) {
        return None;
      }
      for i := 0 to |cps|
        invariant forall j :: 0 <= j < i ==> !IsDue(cps[j], now)
      {
        var isIncomplete := !cps[i].completed;
        var isDue := cps[i].scheduledDate.None? || cps[i].scheduledDate.value <= now;
        if isIncomplete && isDue {
          return Some(cps[i]);
        }
      }
      return None;
    }

    /**
     * `nextPendingReview()`: the first chapter in `allCases` order with a pending
     * checkpoint, with that checkpoint. Every chapter scanned is lazily initialised.
     */
    method NextPendingReview(content: Chapter -> seq<string>, now: int) returns (r: Option<(Chapter, Checkpoint)>)
      requires Valid()
      modifies this`checkpoints
      ensures Valid()
      ensures var pending := PendingByChapter(old(checkpoints), learnedWords, content, now);
        var first := FirstSome(pending, 0);
        && (first.None? ==> r.None? && checkpoints == InitialisedUpTo(old(checkpoints), |AllChapters|))
        && (first.Some? ==>
              && r == Some((AllChapters[first.value], pending[first.value].value))
              && checkpoints == InitialisedUpTo(old(checkpoints), first.value + 1))
    {
      ghost var pending := PendingByChapter(old(checkpoints), learnedWords, content, now);
      for i := 0 to |AllChapters|
        invariant Valid()
        invariant checkpoints == InitialisedUpTo(old(checkpoints), i)
        invariant FirstSome(pending, 0) == FirstSome(pending, i)
      {
        var chapter := AllChapters[i];
        InitialisingKeepsContents(old(checkpoints), i, chapter);
        PendingByChapterAt(old(checkpoints), learnedWords, content, now, i);
        var found := NextPendingCheckpoint(chapter, content(chapter), now);
        assert found == pending[i];
        FirstSomeStep(pending, i);
        if found.Some? {
          return Some((chapter, found.value));
        }
      }
      return None;
    }

    /**
     * `updateMemoryState(for:correct:)` at time `now`: the word's record is updated in
     * place, or a new record is appended.
     */
    method UpdateMemoryState(word: string, correct: bool, now: int)
      modifies this`memory
      ensures memory == Answered(old(memory), word, correct, now)
    {
      var states := memory;
      var index := IndexOfWord(states, word);
      if index.Some? {
        var i := index.value;
        states := states[i := UpdatePerformance(states[i], correct, now)];
      } else {
        var record := MemoryState(word, now, if correct then 0.5 else 0.3, 0, 0);
        record := UpdatePerformance(record, correct, now);
        states := states + [record];
      }
      memory := states;
    }

    /**
     * `weakWords(threshold:limit:)` (and its twin `weakMemoryWords`) at time `now`, with
     * the decay curve `decay`: every record is decayed and the decayed list is stored;
     * the result is the weak selection of that list.
     */
    method WeakWords(threshold: real, limit: int, now: int, decay: real -> real) returns (r: seq<MemoryState>)
      requires limit >= 0
      modifies this`memory
      ensures |memory| == |old(memory)|
      ensures forall i :: 0 <= i < |memory| ==> memory[i] == DecayAt(old(memory)[i], now, decay)
      ensures r == WeakSelection(memory, threshold, limit)
    {
      var states := memory;
      for i := 0 to |states|
        invariant |states| == |old(memory)|
        invariant forall j :: 0 <= j < i ==> states[j] == DecayAt(old(memory)[j], now, decay)
        invariant forall j :: i <= j < |states| ==> states[j] == old(memory)[j]
      {
        states := states[i := DecayAt(states[i], now, decay)];
      }
      memory := states;
      r := Take(SortByConfidence(Weak(states, threshold)), limit);
    }

    /** `logDailyLearningActivity()` on day `today`. */
    method LogDailyLearningActivity(today: int)
      modifies this`activity
      ensures activity == Logged(old(activity), today)
    {
      var log := activity;
      log := log[today := CountOn(log, today) + 1];
      activity := log;
    }

    /** `weeklyActivity()` (and `fetchWeeklyActivity()`) on day `today`. */
    method WeeklyActivity(today: int) returns (r: seq<DayCount>)
      ensures r == Window(activity, today)
    {
      r := [];
      var i := WindowLength;
      while i > 0
        invariant 0 <= i <= WindowLength
        invariant r == Window(activity, today)[..WindowLength - i]
      {
        i := i - 1;
        var day := today - i;
        r := r + [DayCount(day, CountOn(activity, day))];
      }
    }

    /** `updateStreak()` on calendar day `today`. */
    method UpdateStreak(today: int)
      requires Valid()
      modifies this`currentStreak, this`bestStreak, this`lastActiveDay, this`reminders
      ensures Valid()
      ensures Streak(currentStreak, bestStreak, lastActiveDay)
           == StreakStep(Streak(old(currentStreak), old(bestStreak), old(lastActiveDay)), today).streak
      ensures reminders == old(reminders) +
        if StreakStep(Streak(old(currentStreak), old(bestStreak), old(lastActiveDay)), today).remind
        then [Reminder(StreakReminderTitle, StreakReminderDelay)] else []
    {
      var current := currentStreak;
      var best := bestStreak;
      if lastActiveDay.Some? {
        var diff := today - lastActiveDay.value;
        if diff == 0 {
          return;
        } else if diff == 1 {
          current := current + 1;
        } else {
          current := 1;
          reminders := reminders + [Reminder(StreakReminderTitle, StreakReminderDelay)];
        }
      } else {
        current := 1;
      }
      best := if best >= current then best else current;
      currentStreak := current;
      bestStreak := best;
      lastActiveDay := Some(today);
    }

    /** `markChapterAsMastered(_:score:)` at time `now`. */
    method MarkChapterAsMastered(c: Chapter, score: real, now: int)
      modifies this`mastery
      ensures mastery == Marked(old(mastery), c, score, now)
    {
      mastery := mastery[c := MasteryRecord(true, Some(now), Some(score))];
    }

    /**
     * `resetAllProgress()`: clears the learned words, the streak, the activity log and
     * every chapter's checkpoints; word memory records and mastery records are kept.
     */
    method ResetAllProgress()
      requires Valid()
      modifies this
      ensures Valid()
      ensures learnedWords == {} && activity == map[] && checkpoints == map[]
      ensures currentStreak == 0 && bestStreak == 0 && lastActiveDay == None
      ensures memory == old(memory) && mastery == old(mastery) && reminders == old(reminders)
    {
      learnedWords := {};
      currentStreak, bestStreak, lastActiveDay := 0, 0, None;
      var stored := checkpoints;
      for i := 0 to |AllChapters|
        invariant forall c :: c in stored ==> c in old(checkpoints) && stored[c] == old(checkpoints)[c]
        invariant forall j :: 0 <= j < i ==> AllChapters[j] !in stored
      {
        stored := stored - {AllChapters[i]};
      }
      forall c ensures c !in stored {
        assert AllChapters[Index(c)] == c;
      }
      assert stored == map[];
      checkpoints := stored;
      ResetWeeklyActivity();
    }

    /** `resetWeeklyActivity()`: drops the whole activity log. */
    method ResetWeeklyActivity()
      modifies this`activity
      ensures activity == map[]
    {
      activity := map[];
    }

    /**
     * `unlockAllChaptersForTesting()` at time `now`: every chapter is recorded as mastered
     * with score 1.0 and all ten checkpoints passed, and the learned words become exactly
     * the words of all chapters.
     */
    method UnlockAllChaptersForTesting(content: Chapter -> seq<string>, now: int)
      requires Valid()
      modifies this`mastery, this`checkpoints, this`learnedWords
      ensures Valid()
      ensures forall c :: c in mastery && mastery[c] == MasteryRecord(true, Some(now), Some(1.0))
      ensures forall c :: c in checkpoints && checkpoints[c] == PassedCheckpoints()
      ensures forall w :: w in learnedWords <==> exists c :: w in content(c)
    {
      var allWords: seq<string> := [];
      for i := 0 to |AllChapters|
        invariant Valid()
        invariant allWords == AllWords(content, i)
        invariant forall j :: 0 <= j < i ==>
          AllChapters[j] in mastery && mastery[AllChapters[j]] == MasteryRecord(true, Some(now), Some(1.0))
        invariant forall j :: 0 <= j < i ==>
          AllChapters[j] in checkpoints && checkpoints[AllChapters[j]] == PassedCheckpoints()
      {
        var chapter := AllChapters[i];
        allWords := allWords + content(chapter);
        mastery := mastery[chapter := MasteryRecord(true, Some(now), Some(1.0))];
        checkpoints := checkpoints[chapter := PassedCheckpoints()];
      }
      learnedWords := set w | w in allWords;
      forall c ensures c in mastery && mastery[c] == MasteryRecord(true, Some(now), Some(1.0))
                    && c in checkpoints && checkpoints[c] == PassedCheckpoints() {
        assert AllChapters[Index(c)] == c;
      }
      forall w ensures w in learnedWords <==> exists c :: w in content(c) {
        if w in learnedWords {
          var j :| 0 <= j < |AllChapters| && w in content(AllChapters[j]);
        } else {
          forall c ensures w !in content(c) {
            assert AllChapters[Index(c)] == c;
          }
        }
      }
    }
  }
}
