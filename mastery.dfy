/**
 * The chapter mastery ledger of `ProgressManager` (`struct ChapterMastery`,
 * `markChapterAsMastered`, `isChapterMastered`, `hasAttemptedFinalReview`,
 * `averageScore`; Utils/ProgressManager.swift). An absent chapter stands for a
 * missing or undecodable record.
 */
module Mastery {
  import opened Options
  import opened Chapters

  datatype MasteryRecord = MasteryRecord(isMastered: bool, lastReviewed: Option<int>, score: Option<real>)

  type Ledger = map<Chapter, MasteryRecord>

  /** `isChapterMastered`: false without a record. */
  function IsMastered(ledger: Ledger, c: Chapter): bool
  {
    c in ledger && ledger[c].isMastered
  }

  /** `hasAttemptedFinalReview`: a record with a score exists. */
  function HasAttempted(ledger: Ledger, c: Chapter): bool
  {
    c in ledger && ledger[c].score.Some?
  }

  /** `markChapterAsMastered(_:score:)` at time `now`: the chapter's record is overwritten. */
  function Marked(ledger: Ledger, c: Chapter, score: real, now: int): (r: Ledger)
    ensures IsMastered(r, c) && HasAttempted(r, c)
    ensures r[c].score == Some(score) && r[c].lastReviewed == Some(now)
    ensures forall d :: d != c ==> (d in r <==> d in ledger) && (d in r ==> r[d] == ledger[d])
  {
    ledger[c := MasteryRecord(true, Some(now), Some(score))]
  }

  /** Marking again overwrites: the last write wins, whatever was recorded before. */
  lemma MarkLastWriteWins(ledger: Ledger, c: Chapter, s1: real, t1: int, s2: real, t2: int)
    ensures Marked(Marked(ledger, c, s1, t1), c, s2, t2) == Marked(ledger, c, s2, t2)
  {
  }

  /** The scores recorded for `cs`, in order, skipping chapters without one (`compactMap`). */
  function Scores(ledger: Ledger, cs: seq<Chapter>): (r: seq<real>)
    ensures |r| <= |cs|
    ensures |r| == 0 <==> forall i :: 0 <= i < |cs| ==> !HasAttempted(ledger, cs[i])
  {
    if |cs| == 0 then []
    else
      var last := |cs| - 1;
      var rest := Scores(ledger, cs[..last]);
      assert forall i :: 0 <= i < last ==> cs[i] == cs[..last][i];
      if HasAttempted(ledger, cs[last]) then rest + [ledger[cs[last]].score.value] else rest
  }

  /** The positions of `cs` whose chapter has a recorded score. */
  ghost function AttemptedPositions(ledger: Ledger, cs: seq<Chapter>): set<nat>
  {
    set i: nat | i < |cs| && HasAttempted(ledger, cs[i])
  }

  /** The list holds one score per chapter of `cs` that has one. */
  lemma {:induction false} ScoresCount(ledger: Ledger, cs: seq<Chapter>)
    ensures |Scores(ledger, cs)| == |AttemptedPositions(ledger, cs)|
  {
    if |cs| > 0 {
      var last := |cs| - 1;
      var front := cs[..last];
      ScoresCount(ledger, front);
      assert forall i :: 0 <= i < last ==> cs[i] == front[i];
      var p := AttemptedPositions(ledger, front);
      assert last !in p;
      if HasAttempted(ledger, cs[last]) {
        assert AttemptedPositions(ledger, cs) == p + {last};
      } else {
        assert AttemptedPositions(ledger, cs) == p;
      }
    }
  }

  /**
   * The list holds recorded scores only, and every recorded score of a chapter of `cs`
   * is in it.
   */
  lemma {:induction false} ScoresAreRecorded(ledger: Ledger, cs: seq<Chapter>)
    ensures forall k :: 0 <= k < |Scores(ledger, cs)| ==> Scores(ledger, cs)[k] in RecordedScores(ledger, cs)
    ensures forall i :: 0 <= i < |cs| && HasAttempted(ledger, cs[i]) ==>
      ledger[cs[i]].score.value in Scores(ledger, cs)
  {
    if |cs| > 0 {
      var last := |cs| - 1;
      var front := cs[..last];
      ScoresAreRecorded(ledger, front);
      assert forall i :: 0 <= i < last ==> cs[i] == front[i];
      assert RecordedScores(ledger, front) <= RecordedScores(ledger, cs);
      var r, rest := Scores(ledger, cs), Scores(ledger, front);
      assert forall k :: 0 <= k < |rest| ==> r[k] == rest[k];
      forall i | 0 <= i < |cs| && HasAttempted(ledger, cs[i])
        ensures ledger[cs[i]].score.value in r
      {
        if i < last {
          assert cs[i] == front[i];
          assert ledger[front[i]].score.value in rest;
        } else {
          assert r[|r| - 1] == ledger[cs[last]].score.value;
        }
      }
    }
  }

  /**
   * The list keeps chapter order: the score of the `i`-th chapter, when it has one, sits
   * right after the scores of the chapters before it. With `ScoresCount` this fixes
   * every entry of the list, repeated scores included.
   */
  lemma {:induction false} ScoresInOrder(ledger: Ledger, cs: seq<Chapter>, i: nat)
    requires i < |cs| && HasAttempted(ledger, cs[i])
    ensures |Scores(ledger, cs[..i])| < |Scores(ledger, cs)|
    ensures Scores(ledger, cs)[|Scores(ledger, cs[..i])|] == ledger[cs[i]].score.value
  {
    var last := |cs| - 1;
    var front := cs[..last];
    assert forall j :: 0 <= j < last ==> cs[j] == front[j];
    if i < last {
      ScoresInOrder(ledger, front, i);
      assert front[..i] == cs[..i];
      assert front[i] == cs[i];
    } else {
      assert cs[..i] == front;
    }
  }

  /** The scores recorded for the chapters of `cs`. */
  ghost function RecordedScores(ledger: Ledger, cs: seq<Chapter>): set<real>
  {
    set i | 0 <= i < |cs| && HasAttempted(ledger, cs[i]) :: ledger[cs[i]].score.value
  }

  function Sum(s: seq<real>): real
  {
    if |s| == 0 then 0.0 else s[0] + Sum(s[1..])
  }

  /** `averageScore()`: the mean of the recorded scores over all chapters, 0 without any. */
  function AverageScore(ledger: Ledger): (r: real)
    ensures |Scores(ledger, AllChapters)| == 0 ==> r == 0.0
    ensures |Scores(ledger, AllChapters)| > 0 ==>
      r * |Scores(ledger, AllChapters)| as real == Sum(Scores(ledger, AllChapters))
  {
    var scores := Scores(ledger, AllChapters);
    if |scores| == 0 then 0.0 else Sum(scores) / |scores| as real
  }

  /** Every recorded score lies in [lo, hi]. */
  predicate ScoresWithin(ledger: Ledger, lo: real, hi: real)
  {
    forall c :: c in ledger && ledger[c].score.Some? ==> lo <= ledger[c].score.value <= hi
  }

  lemma ScoresListWithin(ledger: Ledger, cs: seq<Chapter>, lo: real, hi: real)
    requires ScoresWithin(ledger, lo, hi)
    ensures forall i :: 0 <= i < |Scores(ledger, cs)| ==> lo <= Scores(ledger, cs)[i] <= hi
  {
    ScoresAreRecorded(ledger, cs);
  }

  lemma {:induction false} SumWithin(s: seq<real>, lo: real, hi: real)
    requires forall i :: 0 <= i < |s| ==> lo <= s[i] <= hi
    ensures |s| as real * lo <= Sum(s) <= |s| as real * hi
  {
    if |s| > 0 {
      SumWithin(s[1..], lo, hi);
    }
  }

  /** A total between `n * lo` and `n * hi` has its mean between `lo` and `hi`. */
  lemma MeanBetween(sum: real, n: real, lo: real, hi: real)
    requires n > 0.0 && n * lo <= sum <= n * hi
    ensures lo <= sum / n <= hi
  {
  }

  /** The average of scores that all lie in [lo, hi] lies in [lo, hi] too. */
  lemma AverageWithin(ledger: Ledger, lo: real, hi: real)
    requires ScoresWithin(ledger, lo, hi)
    requires exists c :: HasAttempted(ledger, c)
    ensures lo <= AverageScore(ledger) <= hi
  {
    var scores := Scores(ledger, AllChapters);
    SomeScoreListed(ledger);
    ScoresListWithin(ledger, AllChapters, lo, hi);
    MeanWithin(scores, lo, hi);
  }

  /** A ledger with any score lists at least one score over all chapters. */
  lemma SomeScoreListed(ledger: Ledger)
    requires exists c :: HasAttempted(ledger, c)
    ensures |Scores(ledger, AllChapters)| > 0
  {
    var c :| HasAttempted(ledger, c);
    assert AllChapters[Index(c)] == c;
  }

  /** The mean of a non-empty list of values in [lo, hi] lies in [lo, hi]. */
  lemma MeanWithin(s: seq<real>, lo: real, hi: real)
    requires |s| > 0
    requires forall i :: 0 <= i < |s| ==> lo <= s[i] <= hi
    ensures lo <= Sum(s) / |s| as real <= hi
  {
    SumWithin(s, lo, hi);
    MeanBetween(Sum(s), |s| as real, lo, hi);
  }
}
