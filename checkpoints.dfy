/**
 * Review checkpoints (`struct ReviewCheckpoint` and the pure parts of the checkpoint
 * operations of `ProgressManager`, Utils/ProgressManager.swift). Each chapter has ten
 * checkpoints, sections 1 to 10, one per tenth of the chapter's words.
 * Timestamps are integer seconds.
 */
module Checkpoints {
  import opened Options
  import opened Search

  datatype Checkpoint = Checkpoint(
    section: int,
    completed: bool,
    scheduledDate: Option<int>,
    lastScore: Option<real>)

  const CheckpointCount: nat := 10

  /** The shape every list written by the manager has: sections 1..10 in order. */
  predicate WellFormed(cps: seq<Checkpoint>)
  {
    |cps| == CheckpointCount && forall i :: 0 <= i < |cps| ==> cps[i].section == i + 1
  }

  /** The ten blank checkpoints `reviewCheckpoints(for:)` creates when storage holds none. */
  function BlankCheckpoints(): (r: seq<Checkpoint>)
    ensures WellFormed(r)
    ensures forall i :: 0 <= i < |r| ==>
      !r[i].completed && r[i].scheduledDate == None && r[i].lastScore == None
  {
    seq(CheckpointCount, i => Checkpoint(i + 1, false, None, None))
  }

  /** The ten passed checkpoints `unlockAllChaptersForTesting` stores. */
  function PassedCheckpoints(): (r: seq<Checkpoint>)
    ensures WellFormed(r)
    ensures forall i :: 0 <= i < |r| ==>
      r[i].completed && r[i].scheduledDate == None && r[i].lastScore == Some(1.0)
  {
    seq(CheckpointCount, i => Checkpoint(i + 1, true, None, Some(1.0)))
  }

  /** `checkpoints.firstIndex(where: { $0.section == section })`. */
  function FirstIndexOfSection(cps: seq<Checkpoint>, section: int): (r: Option<nat>)
    ensures r.Some? ==>
      && r.value < |cps|
      && cps[r.value].section == section
      && forall j :: 0 <= j < r.value ==> cps[j].section != section
    ensures r.None? <==> forall j :: 0 <= j < |cps| ==> cps[j].section != section
  {
    FirstIndex(cps, (cp: Checkpoint) => cp.section == section, 0)
  }

  /** In a well-formed list, section `k` sits at position `k - 1`; other sections are absent. */
  lemma SectionPosition(cps: seq<Checkpoint>, section: int)
    requires WellFormed(cps)
    ensures 1 <= section <= CheckpointCount ==> FirstIndexOfSection(cps, section) == Some(section - 1)
    ensures !(1 <= section <= CheckpointCount) ==> FirstIndexOfSection(cps, section) == None
  {
    if 1 <= section <= CheckpointCount {
      assert cps[section - 1].section == section;
    }
  }

  /**
   * The effect of one review result on one checkpoint: a pass completes it and clears
   * its date; a failure leaves it open and schedules the retry `retryInterval` seconds
   * after `now`; the score is recorded either way.
   */
  function Recorded(cp: Checkpoint, passed: bool, score: real, now: int, retryInterval: int): (r: Checkpoint)
    ensures r.section == cp.section && r.lastScore == Some(score)
    ensures passed ==> r.completed && r.scheduledDate == None
    ensures !passed ==> !r.completed && r.scheduledDate == Some(now + retryInterval)
  {
    var cp' := if passed then cp.(completed := true, scheduledDate := None)
               else cp.(completed := false, scheduledDate := Some(now + retryInterval), lastScore := Some(score));
    cp'.(lastScore := Some(score))
  }

  /** The list `updateCheckpoint` saves: only the first checkpoint with `section` changes. */
  function AfterUpdate(cps: seq<Checkpoint>, section: int, passed: bool, score: real,
                       now: int, retryInterval: int): (r: seq<Checkpoint>)
    ensures |r| == |cps|
    ensures FirstIndexOfSection(cps, section).None? ==> r == cps
    ensures FirstIndexOfSection(cps, section).Some? ==>
      var i := FirstIndexOfSection(cps, section).value;
      && r[i] == Recorded(cps[i], passed, score, now, retryInterval)
      && forall j :: 0 <= j < |cps| && j != i ==> r[j] == cps[j]
    ensures WellFormed(cps) ==> WellFormed(r)
  {
    match FirstIndexOfSection(cps, section)
    case None => cps
    case Some(i) => cps[i := Recorded(cps[i], passed, score, now, retryInterval)]
  }

  /** `!completed && (scheduledDate == nil || scheduledDate! <= now)`. */
  predicate IsDue(cp: Checkpoint, now: int)
  {
    !cp.completed && (cp.scheduledDate.None? || cp.scheduledDate.value <= now)
  }

  /** Position of the first checkpoint, in list order, that is incomplete and due. */
  function FirstDue(cps: seq<Checkpoint>, now: int): (r: Option<nat>)
    ensures r.Some? ==>
      && r.value < |cps|
      && IsDue(cps[r.value], now)
      && forall j :: 0 <= j < r.value ==> !IsDue(cps[j], now)
    ensures r.None? <==> forall j :: 0 <= j < |cps| ==> !IsDue(cps[j], now)
  {
    FirstIndex(cps, (cp: Checkpoint) => IsDue(cp, now), 0)
  }

  /** What `nextPendingCheckpoint(for:)` returns for a chapter with `progress`. */
  function Pending(cps: seq<Checkpoint>, progress: real, now: int): (r: Option<Checkpoint>)
    ensures progress <= 0.0 ==> r == None
    ensures progress > 0.0 ==>
      (r.Some? <==> exists j :: 0 <= j < |cps| && IsDue(cps[j], now))
    ensures r.Some? ==> IsDue(r.value, now) && r.value in cps
  {
    if progress <= 0.0 then None
    else
      match FirstDue(cps, now)
      case None => None
      case Some(i) => Some(cps[i])
  }

  /**
   * The pending checkpoint is the first due one in list order: with positive progress,
   * it sits at a position holding a due checkpoint, and every checkpoint before that
   * position is completed or not yet due.
   */
  lemma PendingIsFirstDue(cps: seq<Checkpoint>, progress: real, now: int)
    requires progress > 0.0 && Pending(cps, progress, now).Some?
    ensures exists i ::
      && 0 <= i < |cps|
      && cps[i] == Pending(cps, progress, now).value
      && forall j :: 0 <= j < i ==> !IsDue(cps[j], now)
  {
    var i := FirstDue(cps, now).value;
    assert cps[i] == Pending(cps, progress, now).value;
  }

  /** A passed checkpoint is never pending again, whatever the time. */
  lemma PassedIsNeverDue(cps: seq<Checkpoint>, section: int, score: real, now: int,
                         retryInterval: int, later: int)
    requires WellFormed(cps) && 1 <= section <= CheckpointCount
    ensures !IsDue(AfterUpdate(cps, section, true, score, now, retryInterval)[section - 1], later)
  {
    SectionPosition(cps, section);
  }

  /**
   * A failed checkpoint is not pending before its retry time and is pending from then on
   * (until it is passed).
   */
  lemma FailedIsDueAtRetry(cps: seq<Checkpoint>, section: int, score: real, now: int,
                           retryInterval: int, later: int)
    requires WellFormed(cps) && 1 <= section <= CheckpointCount
    ensures IsDue(AfterUpdate(cps, section, false, score, now, retryInterval)[section - 1], later)
        <==> now + retryInterval <= later
  {
    SectionPosition(cps, section);
  }

  /**
   * Failing section 3 of a fresh chapter with score 0.4: checkpoint 3 stays open, is
   * scheduled for `now + retryInterval` and records 0.4; the other nine stay blank.
   */
  lemma FreshFailScenario(now: int, retryInterval: int)
    ensures var r := AfterUpdate(BlankCheckpoints(), 3, false, 0.4, now, retryInterval);
      && r[2] == Checkpoint(3, false, Some(now + retryInterval), Some(0.4))
      && forall j :: 0 <= j < |r| && j != 2 ==> r[j] == BlankCheckpoints()[j]
  {
    SectionPosition(BlankCheckpoints(), 3);
  }

  /**
   * A result written to section 1 leaves a later pending checkpoint pending: when the
   * first due checkpoint is not section 1 and the retry interval is positive, it is
   * still the first due checkpoint afterwards, whether the review passed or failed.
   */
  lemma SectionOneUpdateKeepsLaterPending(cps: seq<Checkpoint>, passed: bool, score: real,
                                          now: int, retryInterval: int)
    requires WellFormed(cps) && retryInterval > 0
    requires FirstDue(cps, now).Some? && FirstDue(cps, now).value > 0
    ensures FirstDue(AfterUpdate(cps, 1, passed, score, now, retryInterval), now) == FirstDue(cps, now)
  {
    SectionPosition(cps, 1);
    var k := FirstDue(cps, now).value;
    var r := AfterUpdate(cps, 1, passed, score, now, retryInterval);
    assert !IsDue(r[0], now);
    assert forall j :: 0 < j < |r| ==> r[j] == cps[j];
    assert IsDue(r[k], now);
    var d := FirstDue(r, now);
    assert d.Some?;
    assert d.value <= k;
  }
}
