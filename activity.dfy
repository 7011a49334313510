/**
 * The daily activity log and the streak counters of `ProgressManager`
 * (Utils/ProgressManager.swift). Calendar days are integer day numbers; the source's
 * "yyyy-MM-dd" keys name the same days one to one.
 */
module Activity {
  import opened Options

  /** Learning events logged on `day` (`log[key] ?? 0`). */
  function CountOn(log: map<int, int>, day: int): int
  {
    if day in log then log[day] else 0
  }

  /** `log[todayKey, default: 0] += 1`: today's count goes up by one, no other day moves. */
  function Logged(log: map<int, int>, today: int): (r: map<int, int>)
    ensures CountOn(r, today) == CountOn(log, today) + 1
    ensures forall d :: d != today ==> CountOn(r, d) == CountOn(log, d)
    ensures r.Keys == log.Keys + {today}
  {
    log[today := CountOn(log, today) + 1]
  }

  datatype DayCount = DayCount(day: int, count: int)

  const WindowLength: nat := 7

  /** The seven days ending today, oldest first, with 0 for days without an entry. */
  function Window(log: map<int, int>, today: int): (r: seq<DayCount>)
    ensures |r| == WindowLength
    ensures forall k :: 0 <= k < |r| ==> r[k].day == today - (WindowLength - 1) + k
    ensures forall k :: 0 <= k < |r| ==> r[k].count == CountOn(log, r[k].day)
  {
    seq(WindowLength, k => DayCount(today - (WindowLength - 1) + k, CountOn(log, today - (WindowLength - 1) + k)))
  }

  function Total(s: seq<DayCount>): int
  {
    if |s| == 0 then 0 else Total(s[..|s| - 1]) + s[|s| - 1].count
  }

  /** Two windows that differ only in their last day differ in total by that day's difference. */
  lemma TotalLastDiffers(a: seq<DayCount>, b: seq<DayCount>)
    requires |a| == |b| > 0
    requires a[..|a| - 1] == b[..|b| - 1]
    ensures Total(b) - Total(a) == b[|b| - 1].count - a[|a| - 1].count
  {
  }

  /** Logging an event today adds exactly one to the weekly total and shows on today's bar. */
  lemma LoggingAddsOneToWeek(log: map<int, int>, today: int)
    ensures Window(Logged(log, today), today)[WindowLength - 1].count
         == Window(log, today)[WindowLength - 1].count + 1
    ensures Total(Window(Logged(log, today), today)) == Total(Window(log, today)) + 1
  {
    var a, b := Window(log, today), Window(Logged(log, today), today);
    assert a[..|a| - 1] == b[..|b| - 1];
    TotalLastDiffers(a, b);
  }

  /** The persisted streak: `currentStreak`, `bestStreak` and `lastActiveDate` (a day). */
  datatype Streak = Streak(current: int, best: int, lastActive: Option<int>)

  /** A streak after `updateStreak()`, and whether the "lost your streak" reminder was sent. */
  datatype StreakUpdate = StreakUpdate(streak: Streak, remind: bool)

  function Max(a: int, b: int): int { if a >= b then a else b }

  /**
   * `updateStreak()` on calendar day `today`, by day difference from the last active
   * day: 0 returns early without any write; 1 extends the streak; no earlier day starts
   * it at 1; any other difference restarts it at 1 and sends one reminder. After a
   * write the best streak is the larger of the old best and the new current streak,
   * and today becomes the last active day.
   */
  function StreakStep(s: Streak, today: int): (r: StreakUpdate)
    ensures s.lastActive == Some(today) ==> r == StreakUpdate(s, false)
    ensures s.lastActive.None? ==> r.streak.current == 1 && !r.remind
    ensures s.lastActive.Some? && today - s.lastActive.value == 1 ==>
      r.streak.current == s.current + 1 && !r.remind
    ensures s.lastActive.Some? && today - s.lastActive.value !in {0, 1} ==>
      r.streak.current == 1 && r.remind
    ensures s.lastActive != Some(today) ==>
      r.streak.best == Max(s.best, r.streak.current) && r.streak.lastActive == Some(today)
    ensures r.streak.best >= s.best
    ensures s.best >= s.current ==> r.streak.best >= r.streak.current
    ensures s.current >= 0 ==> r.streak.current >= 0
  {
    match s.lastActive
    case Some(last) =>
      var diff := today - last;
      if diff == 0 then StreakUpdate(s, false)
      else if diff == 1 then
        var current := s.current + 1;
        StreakUpdate(Streak(current, Max(s.best, current), Some(today)), false)
      else
        StreakUpdate(Streak(1, Max(s.best, 1), Some(today)), true)
    case None =>
      StreakUpdate(Streak(1, Max(s.best, 1), Some(today)), false)
  }

  /** The streak after using the app on each of the `n` days following day `from`. */
  function DailyRun(s: Streak, from: int, n: nat): Streak
    decreases n
  {
    if n == 0 then s else DailyRun(StreakStep(s, from + 1).streak, from + 1, n - 1)
  }

  /**
   * Using the app on `n` consecutive days after the last active day lengthens the streak
   * by exactly `n`, and the best streak keeps up with it.
   */
  lemma {:induction false} ConsecutiveDaysExtendStreak(s: Streak, from: int, n: nat)
    requires s.lastActive == Some(from) && s.best >= s.current
    ensures DailyRun(s, from, n).current == s.current + n
    ensures DailyRun(s, from, n).best >= DailyRun(s, from, n).current
    ensures DailyRun(s, from, n).lastActive == Some(from + n)
    decreases n
  {
    if n > 0 {
      var s' := StreakStep(s, from + 1).streak;
      ConsecutiveDaysExtendStreak(s', from + 1, n - 1);
    }
  }

  /**
   * A day after the last activity the streak grows by one; three days after it
   * restarts at 1 with one reminder; the best streak is the maximum in both cases.
   */
  lemma StreakScenarios(current: int, best: int, today: int)
    requires 0 <= current <= best
    ensures var r := StreakStep(Streak(current, best, Some(today - 1)), today);
      r.streak == Streak(current + 1, Max(best, current + 1), Some(today)) && !r.remind
    ensures var r := StreakStep(Streak(current, best, Some(today - 3)), today);
      r.streak == Streak(1, Max(best, 1), Some(today)) && r.remind
  {
  }
}
