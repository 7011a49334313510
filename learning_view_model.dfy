/**
 * `class LearningViewModel` (ViewModels/LearningViewModel.swift): a cursor over a
 * chapter's word list plus the learned-word set. The set is loaded from, and saved to,
 * the manager's global "learnedWords" entry, so it is not per chapter.
 */
module Learning {
  import opened Options
  import opened Search
  import Progress

  /** The part of a `Words` entry the cursor logic uses. */
  datatype Word = Word(italian: string, english: string)

  /** `max(0, words.count - 1)`: the highest index the cursor may take. */
  function LastIndex(count: int): (r: int)
    ensures r >= 0 && (count > 0 ==> r == count - 1)
  {
    if count - 1 >= 0 then count - 1 else 0
  }

  /** `words.firstIndex(where: { !learnedWords.contains($0.italian) })`. */
  function FirstUnlearned(words: seq<Word>, learned: set<string>): (r: Option<nat>)
    ensures r.Some? ==>
      && r.value < |words|
      && words[r.value].italian !in learned
      && forall j :: 0 <= j < r.value ==> words[j].italian in learned
    ensures r.None? <==> forall j :: 0 <= j < |words| ==> words[j].italian in learned
  {
    FirstIndex(words, (w: Word) => w.italian !in learned, 0)
  }

  /**
   * `setStartingIndex()`: the first unlearned word, or the last word (index 0 for an
   * empty list) when every word is learned.
   */
  function StartingIndex(words: seq<Word>, learned: set<string>): (i: int)
    ensures 0 <= i <= LastIndex(|words|)
    ensures forall j :: 0 <= j < i ==> words[j].italian in learned
    ensures || (i < |words| && words[i].italian !in learned)
            || ((forall j :: 0 <= j < |words| ==> words[j].italian in learned) && i == LastIndex(|words|))
  {
    match FirstUnlearned(words, learned)
    case Some(k) => k
    case None => LastIndex(|words|)
  }

  /** Where `nextWord()` moves the cursor: one step forward, never past the last word. */
  function Advanced(i: int, count: int): (r: int)
    ensures i < count - 1 ==> r == i + 1
    ensures i >= count - 1 ==> r == i
  {
    if i < count - 1 then i + 1 else i
  }

  /** Where `previousWord()` moves the cursor: one step back, never below 0. */
  function Retreated(i: int): (r: int)
    ensures i > 0 ==> r == i - 1
    ensures i <= 0 ==> r == i
  {
    if i > 0 then i - 1 else i
  }

  /** Both moves keep the cursor in `[0, max(0, count - 1)]`. */
  lemma MovesStayInBounds(i: int, count: int)
    requires 0 <= i <= LastIndex(count)
    ensures 0 <= Advanced(i, count) <= LastIndex(count)
    ensures 0 <= Retreated(i) <= LastIndex(count)
  {
  }

  /** Away from the ends, one step back undoes one step forward and vice versa. */
  lemma MovesUndoEachOther(i: int, count: int)
    ensures 0 <= i < count - 1 ==> Retreated(Advanced(i, count)) == i
    ensures 0 < i < count ==> Advanced(Retreated(i), count) == i
  {
  }

  class LearningViewModel {
    var words: seq<Word>
    var currentIndex: int
    var learnedWords: set<string>
    /** `ProgressManager.shared`, whose `learnedWords` field is the persisted set. */
    const store: Progress.ProgressManager

    ghost predicate Valid()
      reads this
    {
      0 <= currentIndex <= LastIndex(|words|)
    }

    /** `init(words:)`: load the global learned set, then move to the starting index. */
    constructor (words: seq<Word>, store: Progress.ProgressManager)
      ensures Valid()
      ensures this.words == words && this.store == store
      ensures learnedWords == store.learnedWords
      ensures currentIndex == StartingIndex(words, store.learnedWords)
    {
      this.words := words;
      this.store := store;
      learnedWords := store.learnedWords;
      new;
      SetStartingIndex();
    }

    /** `setStartingIndex()`. */
    method SetStartingIndex()
      modifies this`currentIndex
      ensures Valid()
      ensures currentIndex == StartingIndex(words, learnedWords)
    {
      var next := FirstUnlearned(words, learnedWords);
      if next.Some? {
        currentIndex := next.value;
      } else {
        currentIndex := if |words| - 1 >= 0 then |words| - 1 else 0;
      }
    }

    /** `currentWord`; the source traps on an empty list. */
    function CurrentWord(): (w: Word)
      reads this
      requires Valid() && |words| > 0
      ensures w in words
    {
      words[currentIndex]
    }

    /** `nextWord()`. */
    method NextWord()
      requires Valid()
      modifies this`currentIndex
      ensures Valid()
      ensures currentIndex == Advanced(old(currentIndex), |words|)
    {
      if currentIndex < |words| - 1 {
        currentIndex := currentIndex + 1;
      }
    }

    /** `previousWord()`. */
    method PreviousWord()
      requires Valid()
      modifies this`currentIndex
      ensures Valid()
      ensures currentIndex == Retreated(old(currentIndex))
    {
      if currentIndex > 0 {
        currentIndex := currentIndex - 1;
      }
    }

    /**
     * `markAsLearned()`: the current word joins the set (a word already there changes
     * nothing), the whole set overwrites the stored one, and the cursor advances.
     */
    method MarkAsLearned()
      requires Valid() && |words| > 0
      modifies this`learnedWords, this`currentIndex, store`learnedWords
      ensures Valid()
      ensures learnedWords == old(learnedWords) + {old(CurrentWord()).italian}
      ensures old(CurrentWord()).italian in old(learnedWords) ==> learnedWords == old(learnedWords)
      ensures store.learnedWords == learnedWords
      ensures currentIndex == Advanced(old(currentIndex), |words|)
    {
      learnedWords := learnedWords + {CurrentWord().italian};
      store.learnedWords := learnedWords;
      NextWord();
    }
  }
}
