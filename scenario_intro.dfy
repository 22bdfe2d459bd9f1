/** The scenario intro stage of a lesson: the learner ticks off each key phrase; the continue
    button is enabled once as many phrases are ticked as there are. */
module ScenarioIntro {
  import IntSets

  /** `togglePhraseCompletion`: the ticked set with the membership of `i` flipped. */
  function Toggle(ticked: set<int>, i: int): (r: set<int>)
    ensures i in r <==> i !in ticked
    ensures forall j :: j != i ==> (j in r <==> j in ticked)
  {
    if i in ticked then ticked - {i} else ticked + {i}
  }

  /** Toggling the same phrase twice restores the ticked set. */
  lemma ToggleTwice(ticked: set<int>, i: int)
    ensures Toggle(Toggle(ticked, i), i) == ticked
  {
  }

  /** Toggles of different phrases commute. */
  lemma ToggleCommutes(ticked: set<int>, i: int, j: int)
    ensures Toggle(Toggle(ticked, i), j) == Toggle(Toggle(ticked, j), i)
  {
  }

  /** `allPhrasesReviewed`. */
  predicate AllReviewed(ticked: set<int>, phraseCount: nat) {
    |ticked| == phraseCount
  }

  /** When only phrase indices are ticked, the count test means that every phrase is ticked. */
  lemma AllReviewedIffEvery(ticked: set<int>, phraseCount: nat)
    requires forall x :: x in ticked ==> 0 <= x < phraseCount
    ensures AllReviewed(ticked, phraseCount) <==> forall i :: 0 <= i < phraseCount ==> i in ticked
  {
    IntSets.FullIffAll(ticked, phraseCount);
  }

  class Intro {
    const phraseCount: nat
    var completedPhrases: set<int>

    /** Only the indices of listed phrases can be ticked. */
    ghost predicate Valid()
      reads this
    {
      forall x :: x in completedPhrases ==> 0 <= x < phraseCount
    }

    constructor (phraseCount: nat)
      ensures Valid() && this.phraseCount == phraseCount && completedPhrases == {}
      ensures AllReviewed(completedPhrases, phraseCount) <==> phraseCount == 0
    {
      this.phraseCount := phraseCount;
      completedPhrases := {};
    }

    /** A click on the check mark of phrase `index`; the marks exist for the listed phrases only. */
    method TogglePhraseCompletion(index: int)
      requires Valid() && 0 <= index < phraseCount
      modifies this
      ensures Valid()
      ensures completedPhrases == Toggle(old(completedPhrases), index)
    {
      var newCompleted := completedPhrases;
      if index in newCompleted {
        newCompleted := newCompleted - {index};
      } else {
        newCompleted := newCompleted + {index};
      }
      completedPhrases := newCompleted;
    }

    /** The continue button: it fires only when enabled. */
    method Continue() returns (proceeds: bool)
      requires Valid()
      ensures proceeds <==> forall i :: 0 <= i < phraseCount ==> i in completedPhrases
    {
      AllReviewedIffEvery(completedPhrases, phraseCount);
      proceeds := |completedPhrases| == phraseCount;
    }
  }
}
