/**
 * The list of word memory records kept by `ProgressManager` (Utils/ProgressManager.swift):
 * recording an answer, the next-review time, and the weak-word selection. Timestamps
 * are integer seconds.
 */
module MemoryBook {
  import opened Options
  import opened WordMemory
  import opened Search

  /** `states.firstIndex(where: { $0.word == word })`. */
  function IndexOfWord(states: seq<MemoryState>, word: string): (r: Option<nat>)
    ensures r.Some? ==>
      && r.value < |states|
      && states[r.value].word == word
      && forall j :: 0 <= j < r.value ==> states[j].word != word
    ensures r.None? <==> forall j :: 0 <= j < |states| ==> states[j].word != word
  {
    FirstIndex(states, (m: MemoryState) => m.word == word, 0)
  }

  /** No two records share a word. */
  predicate UniqueWords(states: seq<MemoryState>)
  {
    forall i, j :: 0 <= i < j < |states| ==> states[i].word != states[j].word
  }

  /** Every record's confidence lies in [0, 1]. */
  predicate AllInUnit(states: seq<MemoryState>)
  {
    forall i :: 0 <= i < |states| ==> InUnit(states[i].confidence)
  }

  /**
   * The record created for a word answered for the first time: it starts at 0.5
   * (correct) or 0.3 (wrong) and is then updated once, so it ends at 0.65 or 0.05.
   */
  function FirstRecord(word: string, correct: bool, now: int): (r: MemoryState)
    ensures r.word == word && r.lastReviewed == now
    ensures correct ==> r.confidence == 0.65 && r.correctCount == 1 && r.incorrectCount == 0
    ensures !correct ==> r.confidence == 0.05 && r.correctCount == 0 && r.incorrectCount == 1
  {
    UpdatePerformance(MemoryState(word, now, if correct then 0.5 else 0.3, 0, 0), correct, now)
  }

  /**
   * The list `updateMemoryState(for:correct:)` saves: the first record for `word` is
   * updated in place, or one new record is appended when there is none.
   */
  function Answered(states: seq<MemoryState>, word: string, correct: bool, now: int): (r: seq<MemoryState>)
    ensures IndexOfWord(states, word).Some? ==>
      var i := IndexOfWord(states, word).value;
      && |r| == |states|
      && r[i] == UpdatePerformance(states[i], correct, now)
      && forall j :: 0 <= j < |states| && j != i ==> r[j] == states[j]
    ensures IndexOfWord(states, word).None? ==> r == states + [FirstRecord(word, correct, now)]
    ensures IndexOfWord(r, word).Some? && r[IndexOfWord(r, word).value].lastReviewed == now
    ensures UniqueWords(states) ==> UniqueWords(r)
    ensures AllInUnit(states) ==> AllInUnit(r)
  {
    match IndexOfWord(states, word)
    case Some(i) => states[i := UpdatePerformance(states[i], correct, now)]
    case None =>
      var r := states + [FirstRecord(word, correct, now)];
      assert r[|states|].word == word;
      assert forall j :: 0 <= j < |states| ==> r[j].word != word;
      r
  }

  /** Seconds in an hour. */
  const Hour: int := 3600

  /**
   * The base review interval of `nextReviewDate(for:)` by confidence bracket:
   * 6h below 0.3, 12h below 0.6, 24h below 0.8, 48h otherwise (the `default` case
   * also catches negative confidence).
   */
  function BaseInterval(confidence: real): (r: int)
    ensures 0.0 <= confidence < 0.3 ==> r == 6 * Hour
    ensures 0.3 <= confidence < 0.6 ==> r == 12 * Hour
    ensures 0.6 <= confidence < 0.8 ==> r == 24 * Hour
    ensures confidence < 0.0 || confidence >= 0.8 ==> r == 48 * Hour
  {
    if 0.0 <= confidence < 0.3 then 6 * Hour
    else if 0.3 <= confidence < 0.6 then 12 * Hour
    else if 0.6 <= confidence < 0.8 then 24 * Hour
    else 48 * Hour
  }

  /** A more confident word is never reviewed sooner. */
  lemma BaseIntervalMonotone(c1: real, c2: real)
    requires 0.0 <= c1 <= c2
    ensures 6 * Hour <= BaseInterval(c1) <= BaseInterval(c2) <= 48 * Hour
  {
  }

  /** The fallback delay for a word without a record. */
  const ColdStartDelay: int := 6 * Hour

  /**
   * `nextReviewDate(for:)`, with the random factor drawn from [-0.1, 0.1] passed in as
   * `jitter`: `now + 6h` for an unknown word, otherwise `lastReviewed` plus the
   * bracket's interval stretched by `1 + jitter`.
   */
  function NextReviewTime(states: seq<MemoryState>, word: string, now: int, jitter: real): (r: real)
    requires -0.1 <= jitter <= 0.1
    ensures IndexOfWord(states, word).None? ==> r == (now + ColdStartDelay) as real
    ensures IndexOfWord(states, word).Some? ==>
      var m := states[IndexOfWord(states, word).value];
      var base := BaseInterval(m.confidence) as real;
      && m.lastReviewed as real + 0.9 * base <= r <= m.lastReviewed as real + 1.1 * base
      && r == m.lastReviewed as real + base * (1.0 + jitter)
      && r > m.lastReviewed as real
  {
    match IndexOfWord(states, word)
    case None => (now + ColdStartDelay) as real
    case Some(i) =>
      var base := BaseInterval(states[i].confidence) as real;
      states[i].lastReviewed as real + (base + jitter * base)
  }

  /** `states.filter { $0.confidence < threshold }`. */
  function Weak(states: seq<MemoryState>, threshold: real): (r: seq<MemoryState>)
    ensures forall i :: 0 <= i < |r| ==> r[i].confidence < threshold
    ensures forall x :: multiset(r)[x] == if x.confidence < threshold then multiset(states)[x] else 0
    ensures multiset(r) <= multiset(states)
  {
    if |states| == 0 then []
    else
      var rest := Weak(states[1..], threshold);
      assert states == [states[0]] + states[1..];
      var r := if states[0].confidence < threshold then [states[0]] + rest else rest;
      FilterStep(states[0], states[1..], rest, r, threshold);
      r
  }

  /** One step of the filter: keeping or dropping the head keeps the multiset characterisation. */
  lemma FilterStep(x: MemoryState, tail: seq<MemoryState>, rest: seq<MemoryState>,
                   r: seq<MemoryState>, threshold: real)
    requires forall y :: multiset(rest)[y] == if y.confidence < threshold then multiset(tail)[y] else 0
    requires r == if x.confidence < threshold then [x] + rest else rest
    ensures forall y :: multiset(r)[y] == if y.confidence < threshold then multiset([x] + tail)[y] else 0
  {
    assert multiset([x] + tail) == multiset{x} + multiset(tail);
    if x.confidence < threshold {
      assert multiset(r) == multiset{x} + multiset(rest);
    }
  }

  predicate SortedByConfidence(s: seq<MemoryState>)
  {
    forall i, j :: 0 <= i < j < |s| ==> s[i].confidence <= s[j].confidence
  }

  /** Inserts `x` before the first element that is at least as confident. */
  function Insert(x: MemoryState, s: seq<MemoryState>): (r: seq<MemoryState>)
    requires SortedByConfidence(s)
    ensures SortedByConfidence(r)
    ensures multiset(r) == multiset(s) + multiset{x}
    ensures |r| == |s| + 1 && (r[0] == x || (|s| > 0 && r[0] == s[0]))
  {
    if |s| == 0 then [x]
    else if x.confidence <= s[0].confidence then [x] + s
    else
      var rest := Insert(x, s[1..]);
      assert s == [s[0]] + s[1..];
      assert s[0].confidence <= rest[0].confidence;
      [s[0]] + rest
  }

  /** `sorted(by: { $0.confidence < $1.confidence })`: ascending confidence, same records. */
  function SortByConfidence(s: seq<MemoryState>): (r: seq<MemoryState>)
    ensures SortedByConfidence(r)
    ensures multiset(r) == multiset(s) && |r| == |s|
  {
    if |s| == 0 then []
    else
      assert s == [s[0]] + s[1..];
      Insert(s[0], SortByConfidence(s[1..]))
  }

  /** `prefix(limit)`. */
  function Take(s: seq<MemoryState>, limit: nat): (r: seq<MemoryState>)
    ensures |r| == if limit < |s| then limit else |s|
    ensures r == s[..|r|]
  {
    if limit < |s| then s[..limit] else s
  }

  /** The list `weakWords(threshold:limit:)` returns from the already decayed records. */
  function WeakSelection(states: seq<MemoryState>, threshold: real, limit: nat): seq<MemoryState>
  {
    Take(SortByConfidence(Weak(states, threshold)), limit)
  }

  /**
   * The weak-word list holds `min(limit, number of weak records)` records, each below
   * `threshold`, weakest first, all taken from `states`.
   */
  lemma WeakSelectionBounds(states: seq<MemoryState>, threshold: real, limit: nat)
    ensures var r := WeakSelection(states, threshold, limit);
      var weak := |Weak(states, threshold)|;
      && |r| == (if limit < weak then limit else weak)
      && (forall i :: 0 <= i < |r| ==> r[i].confidence < threshold)
      && SortedByConfidence(r)
      && multiset(r) <= multiset(states)
  {
    var w := Weak(states, threshold);
    var full := SortByConfidence(w);
    var r := WeakSelection(states, threshold, limit);
    PrefixOfSorted(full, |r|);
    forall i | 0 <= i < |r| ensures r[i].confidence < threshold {
      assert r[i] in multiset(w);
    }
  }

  /** A prefix of a sorted list is sorted and takes nothing the list does not hold. */
  lemma PrefixOfSorted(s: seq<MemoryState>, k: nat)
    requires SortedByConfidence(s) && k <= |s|
    ensures SortedByConfidence(s[..k]) && multiset(s[..k]) <= multiset(s)
  {
    assert s == s[..k] + s[k..];
  }

  /** In a sorted list, whatever is not in the first `k` entries is at least as confident as they are. */
  lemma SortedPrefixIsLeast(full: seq<MemoryState>, k: nat, x: MemoryState)
    requires SortedByConfidence(full) && k <= |full|
    requires x in multiset(full) - multiset(full[..k])
    ensures forall i :: 0 <= i < k ==> full[i].confidence <= x.confidence
  {
    assert full == full[..k] + full[k..];
    assert multiset(full) == multiset(full[..k]) + multiset(full[k..]);
    assert x in multiset(full[k..]);
    var j :| k <= j < |full| && full[j] == x by {
      assert x in full[k..];
    }
  }

  /**
   * The weak-word list holds the weakest records: every weak record left out is at
   * least as confident as every record returned.
   */
  lemma WeakSelectionIsWeakest(states: seq<MemoryState>, threshold: real, limit: nat)
    ensures var r := WeakSelection(states, threshold, limit);
      forall x :: x in multiset(Weak(states, threshold)) - multiset(r) ==>
        forall i :: 0 <= i < |r| ==> r[i].confidence <= x.confidence
  {
    var full := SortByConfidence(Weak(states, threshold));
    var r := WeakSelection(states, threshold, limit);
    assert r == full[..|r|];
    forall x | x in multiset(full) - multiset(r)
      ensures forall i :: 0 <= i < |r| ==> r[i].confidence <= x.confidence
    {
      SortedPrefixIsLeast(full, |r|, x);
    }
  }
}
