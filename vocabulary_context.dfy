/** The spaced-repetition vocabulary store: the word list of the signed-in learner, the review
    ladder, the "due" query, duplicate-free insertion and removal. Persistence is the in-memory
    word list itself (a write followed by a reload leaves the list exactly as stated here). */
module VocabularyContext {
  import opened Optional
  import Text
  import Seqs

  datatype Difficulty = Beginner | Intermediate | Advanced

  /** A `vocabulary_words` row. Times are milliseconds since the epoch. */
  datatype Word = Word(
    id: nat,
    german: string,
    english: string,
    contextSentence: Option<string>,
    themeId: Option<string>,
    difficulty: Option<Difficulty>,
    timesReviewed: nat,
    timesCorrect: nat,
    nextReview: int)

  const DayMillis: int := 24 * 60 * 60 * 1000

  /** The review intervals in days after the 1st, 2nd, 3rd, 4th and 5th-or-later correct answer. */
  const Ladder: seq<nat> := [1, 3, 7, 14, 30]

  /** A word's counters are consistent: it was never answered correctly more often than reviewed. */
  predicate Sound(w: Word) {
    w.timesCorrect <= w.timesReviewed
  }

  predicate IsDue(w: Word, now: int) {
    w.nextReview <= now
  }

  /** The interval a review schedules; `timesCorrect` is the count before the review. */
  function IntervalDays(correct: bool, timesCorrect: nat): (days: nat)
    ensures days >= 1
    ensures !correct ==> days == 1
    ensures correct ==> days == Ladder[if timesCorrect < 4 then timesCorrect else 4]
  {
    if correct then
      var newCorrect := timesCorrect + 1;
      if newCorrect == 1 then 1
      else if newCorrect == 2 then 3
      else if newCorrect == 3 then 7
      else if newCorrect == 4 then 14
      else 30
    else 1
  }

  /** The word after one review answered at time `now`. */
  function Reviewed(w: Word, correct: bool, now: int): (r: Word)
    ensures r.timesReviewed == w.timesReviewed + 1
    ensures r.timesCorrect == if correct then w.timesCorrect + 1 else w.timesCorrect
    ensures r.nextReview == now + IntervalDays(correct, w.timesCorrect) * DayMillis
    ensures r.nextReview > now && !IsDue(r, now)
    ensures Sound(w) ==> Sound(r)
    ensures r.(timesReviewed := w.timesReviewed, timesCorrect := w.timesCorrect,
               nextReview := w.nextReview) == w
  {
    w.(timesReviewed := w.timesReviewed + 1,
       timesCorrect := if correct then w.timesCorrect + 1 else w.timesCorrect,
       nextReview := now + IntervalDays(correct, w.timesCorrect) * DayMillis)
  }

  /** `words.find(w => w.id === id)`, as the position of the first word with that id. */
  function IndexOf(words: seq<Word>, id: nat): (r: Option<nat>)
    ensures r.Some? ==> r.value < |words| && words[r.value].id == id
    ensures r.Some? ==> forall j :: 0 <= j < r.value ==> words[j].id != id
    ensures r.None? ==> forall j :: 0 <= j < |words| ==> words[j].id != id
  {
    Seqs.FirstIndex(words, (w: Word) => w.id == id)
  }

  /** The word list after `reviewWord(id, correct)` at time `now`. */
  function AfterReview(words: seq<Word>, id: nat, correct: bool, now: int): (r: seq<Word>)
    ensures |r| == |words|
    ensures IndexOf(words, id).None? ==> r == words
    ensures IndexOf(words, id).Some? ==>
      var i := IndexOf(words, id).value;
      r[i] == Reviewed(words[i], correct, now) &&
      forall j :: 0 <= j < |words| && j != i ==> r[j] == words[j]
  {
    match IndexOf(words, id)
    case None => words
    case Some(i) => words[i := Reviewed(words[i], correct, now)]
  }

  /** `getDueWords()`: the words whose next review is not after `now`, in list order. */
  function DueWords(words: seq<Word>, now: int): (r: seq<Word>)
    ensures |r| <= |words|
    ensures forall w :: w in r <==> w in words && IsDue(w, now)
  {
    if words == [] then []
    else
      var last := words[|words| - 1];
      DueWords(words[..|words| - 1], now) + (if IsDue(last, now) then [last] else [])
  }

  /** The due query keeps list order: it distributes over concatenation. */
  lemma {:induction false} DueWordsAppend(a: seq<Word>, b: seq<Word>, now: int)
    ensures DueWords(a + b, now) == DueWords(a, now) + DueWords(b, now)
    decreases |b|
  {
    if b == [] {
      assert a + b == a;
    } else {
      assert (a + b)[..|a + b| - 1] == a + b[..|b| - 1];
      DueWordsAppend(a, b[..|b| - 1], now);
    }
  }

  /** Asking again of the due list gives the due list: the query is stable. */
  lemma {:induction false} DueWordsIdempotent(words: seq<Word>, now: int)
    ensures DueWords(DueWords(words, now), now) == DueWords(words, now)
  {
    if words != [] {
      var init, last := words[..|words| - 1], words[|words| - 1];
      DueWordsIdempotent(init, now);
      var tail := if IsDue(last, now) then [last] else [];
      DueWordsAppend(DueWords(init, now), tail, now);
      assert DueWords(tail, now) == tail by {
        if tail != [] {
          assert tail[..0] == [];
        }
      }
    }
  }

  /** `x || null` on an optional string: an empty string is stored as null. */
  function NonEmpty(s: Option<string>): (r: Option<string>)
    ensures r.Some? <==> s.Some? && s.value != ""
    ensures r.Some? ==> r == s
  {
    match s
    case Some(v) => if v == "" then None else s
    case None => None
  }

  /** Some word already has this German text, compared case-insensitively. */
  predicate HasGerman(words: seq<Word>, german: string) {
    exists i :: 0 <= i < |words| && Text.Lower(words[i].german) == Text.Lower(german)
  }

  /** The row `addWord` inserts: never reviewed, due at once, difficulty `beginner` by default. */
  function NewWord(id: nat, german: string, english: string, contextSentence: Option<string>,
                   themeId: Option<string>, difficulty: Option<Difficulty>, now: int): (w: Word)
    ensures w.id == id && w.german == german && w.english == english
    ensures w.timesReviewed == 0 && w.timesCorrect == 0 && Sound(w)
    ensures IsDue(w, now)
    ensures w.difficulty == Some(if difficulty.Some? then difficulty.value else Beginner)
  {
    Word(id, german, english, NonEmpty(contextSentence), NonEmpty(themeId),
         Some(difficulty.GetOr(Beginner)), 0, 0, now)
  }

  /** The word list after `addWord`; the reload orders by creation time, newest first. */
  function AfterAdd(words: seq<Word>, id: nat, german: string, english: string,
                    contextSentence: Option<string>, themeId: Option<string>,
                    difficulty: Option<Difficulty>, now: int): (r: seq<Word>)
    ensures HasGerman(words, german) ==> r == words
    ensures !HasGerman(words, german) ==>
      r == [NewWord(id, german, english, contextSentence, themeId, difficulty, now)] + words
    ensures HasGerman(r, german)
  {
    if HasGerman(words, german) then words
    else
      var w := NewWord(id, german, english, contextSentence, themeId, difficulty, now);
      assert ([w] + words)[0] == w;
      [w] + words
  }

  /** Adding the same German text twice (in any letter case) adds it once. */
  lemma AddTwiceIsOnce(words: seq<Word>, id1: nat, id2: nat, german1: string, german2: string,
                       english1: string, english2: string,
                       context1: Option<string>, context2: Option<string>,
                       theme1: Option<string>, theme2: Option<string>,
                       difficulty1: Option<Difficulty>, difficulty2: Option<Difficulty>,
                       now1: int, now2: int)
    requires Text.Lower(german1) == Text.Lower(german2)
    ensures var once := AfterAdd(words, id1, german1, english1, context1, theme1, difficulty1, now1);
      AfterAdd(once, id2, german2, english2, context2, theme2, difficulty2, now2) == once
  {
    var once := AfterAdd(words, id1, german1, english1, context1, theme1, difficulty1, now1);
    var i :| 0 <= i < |once| && Text.Lower(once[i].german) == Text.Lower(german1);
    assert HasGerman(once, german2);
  }

  /** A newly added word is due from the moment it is added on. */
  lemma AddedWordIsDue(words: seq<Word>, id: nat, german: string, english: string,
                       contextSentence: Option<string>, themeId: Option<string>,
                       difficulty: Option<Difficulty>, now: int, later: int)
    requires !HasGerman(words, german) && now <= later
    ensures NewWord(id, german, english, contextSentence, themeId, difficulty, now)
            in DueWords(AfterAdd(words, id, german, english, contextSentence, themeId, difficulty, now), later)
  {
  }

  /** `words.filter(w => w.id !== id)`. */
  function WithoutId(words: seq<Word>, id: nat): (r: seq<Word>)
    ensures |r| <= |words|
    ensures forall w :: w in r <==> w in words && w.id != id
  {
    if words == [] then []
    else
      var last := words[|words| - 1];
      WithoutId(words[..|words| - 1], id) + (if last.id != id then [last] else [])
  }

  /** Removal keeps the other words in their order: it distributes over concatenation. */
  lemma {:induction false} WithoutIdAppend(a: seq<Word>, b: seq<Word>, id: nat)
    ensures WithoutId(a + b, id) == WithoutId(a, id) + WithoutId(b, id)
    decreases |b|
  {
    if b == [] {
      assert a + b == a;
    } else {
      assert (a + b)[..|a + b| - 1] == a + b[..|b| - 1];
      WithoutIdAppend(a, b[..|b| - 1], id);
    }
  }

  /** Removing an id no word has changes nothing. */
  lemma {:induction false} WithoutAbsentId(words: seq<Word>, id: nat)
    requires forall j :: 0 <= j < |words| ==> words[j].id != id
    ensures WithoutId(words, id) == words
  {
    if words != [] {
      var init := words[..|words| - 1];
      assert forall j :: 0 <= j < |init| ==> init[j] == words[j];
      WithoutAbsentId(init, id);
      assert init + [words[|words| - 1]] == words;
    }
  }

  /** Removing a word just added under a fresh id gives back the list before the addition. */
  lemma RemoveUndoesAdd(words: seq<Word>, id: nat, german: string, english: string,
                        contextSentence: Option<string>, themeId: Option<string>,
                        difficulty: Option<Difficulty>, now: int)
    requires forall j :: 0 <= j < |words| ==> words[j].id != id
    ensures WithoutId(AfterAdd(words, id, german, english, contextSentence, themeId, difficulty, now), id)
            == words
  {
    if !HasGerman(words, german) {
      var w := NewWord(id, german, english, contextSentence, themeId, difficulty, now);
      WithoutIdAppend([w], words, id);
      assert WithoutId([w], id) == [] by {
        assert [w][..0] == [];
      }
    }
    WithoutAbsentId(words, id);
  }

  /** The store invariant: every word is sound, ids are below the next id and pairwise distinct. */
  predicate WellFormed(words: seq<Word>, nextId: nat) {
    (forall i :: 0 <= i < |words| ==> Sound(words[i]) && words[i].id < nextId) &&
    (forall i, j :: 0 <= i < j < |words| ==> words[i].id != words[j].id)
  }

  lemma ReviewKeepsWellFormed(words: seq<Word>, nextId: nat, id: nat, correct: bool, now: int)
    requires WellFormed(words, nextId)
    ensures WellFormed(AfterReview(words, id, correct, now), nextId)
  {
  }

  lemma AddKeepsWellFormed(words: seq<Word>, nextId: nat, german: string, english: string,
                           contextSentence: Option<string>, themeId: Option<string>,
                           difficulty: Option<Difficulty>, now: int)
    requires WellFormed(words, nextId)
    ensures WellFormed(AfterAdd(words, nextId, german, english, contextSentence, themeId, difficulty, now),
                       nextId + 1)
  {
    var r := AfterAdd(words, nextId, german, english, contextSentence, themeId, difficulty, now);
    if !HasGerman(words, german) {
      assert forall i :: 1 <= i < |r| ==> r[i] == words[i - 1];
    }
  }

  /** Every element of a filtered list sits in the original list at an index no smaller. */
  lemma {:induction false} WithoutIdKeepsWellFormed(words: seq<Word>, nextId: nat, id: nat)
    requires WellFormed(words, nextId)
    ensures WellFormed(WithoutId(words, id), nextId)
  {
    if words != [] {
      var init, last := words[..|words| - 1], words[|words| - 1];
      assert WellFormed(init, nextId);
      WithoutIdKeepsWellFormed(init, nextId, id);
      var r := WithoutId(words, id);
      var ri := WithoutId(init, id);
      if last.id != id {
        assert r == ri + [last];
        forall i | 0 <= i < |ri| ensures ri[i].id != last.id {
          assert ri[i] in init;
        }
      }
    }
  }

  /** One review answer given at a time. */
  datatype Answer = Answer(correct: bool, at: int)

  /** A word after a sequence of reviews, in order. */
  function Replay(w: Word, answers: seq<Answer>): Word
    decreases |answers|
  {
    if answers == [] then w
    else Replay(Reviewed(w, answers[0].correct, answers[0].at), answers[1..])
  }

  function CorrectCount(answers: seq<Answer>): nat {
    if answers == [] then 0 else (if answers[0].correct then 1 else 0) + CorrectCount(answers[1..])
  }

  /** Any sequence of reviews adds one review per answer and one correct per correct answer, and
      so keeps `timesCorrect <= timesReviewed`. */
  lemma {:induction false} ReplayCounters(w: Word, answers: seq<Answer>)
    ensures Replay(w, answers).timesReviewed == w.timesReviewed + |answers|
    ensures Replay(w, answers).timesCorrect == w.timesCorrect + CorrectCount(answers)
    ensures Sound(w) ==> Sound(Replay(w, answers))
    ensures CorrectCount(answers) <= |answers|
    decreases |answers|
  {
    if answers != [] {
      ReplayCounters(Reviewed(w, answers[0].correct, answers[0].at), answers[1..]);
    }
  }

  /** From a word never answered correctly, after `k` correct answers the next correct answer
      schedules the review 1, 3, 7, 14, 30, 30, ... days ahead for k = 0, 1, 2, .... */
  lemma StreakFollowsLadder(w: Word, answers: seq<Answer>, now: int)
    requires w.timesCorrect == 0
    requires forall i :: 0 <= i < |answers| ==> answers[i].correct
    ensures var k := |answers|;
      Reviewed(Replay(w, answers), true, now).nextReview
        == now + [1, 3, 7, 14, 30][if k < 4 then k else 4] * DayMillis
  {
    ReplayCounters(w, answers);
    AllCorrectCount(answers);
  }

  lemma {:induction false} AllCorrectCount(answers: seq<Answer>)
    requires forall i :: 0 <= i < |answers| ==> answers[i].correct
    ensures CorrectCount(answers) == |answers|
  {
    if answers != [] {
      AllCorrectCount(answers[1..]);
    }
  }

  /** An incorrect answer schedules the next review one day ahead whatever came before. */
  lemma WrongAnswerResetsInterval(w: Word, answers: seq<Answer>, now: int)
    ensures Reviewed(Replay(w, answers), false, now).nextReview == now + DayMillis
    ensures Reviewed(Replay(w, answers), false, now).timesCorrect == Replay(w, answers).timesCorrect
  {
  }

  /** The learner's vocabulary context. */
  class Provider {
    /** Whether a user is signed in; every operation does nothing otherwise. */
    const signedIn: bool
    var words: seq<Word>
    /** The id the store assigns to the next inserted row. */
    var nextId: nat

    ghost predicate Valid()
      reads this
    {
      WellFormed(words, nextId)
    }

    /** A sign-in loads the learner's rows, newest first; `nextId` is above every stored id. A
        signed-out store holds no words. */
    constructor (signedIn: bool, stored: seq<Word>, nextId: nat)
      requires WellFormed(stored, nextId)
      ensures Valid() && this.signedIn == signedIn && this.nextId == nextId
      ensures words == if signedIn then stored else []
    {
      this.signedIn := signedIn;
      words := if signedIn then stored else [];
      this.nextId := nextId;
    }

    method AddWord(german: string, english: string, contextSentence: Option<string>,
                   themeId: Option<string>, difficulty: Option<Difficulty>, now: int)
      requires Valid()
      modifies this
      ensures Valid()
      ensures signedIn && !HasGerman(old(words), german) ==>
        words == AfterAdd(old(words), old(nextId), german, english, contextSentence, themeId, difficulty, now)
        && nextId == old(nextId) + 1
      ensures !signedIn || HasGerman(old(words), german) ==>
        words == old(words) && nextId == old(nextId)
    {
      if !signedIn {
        return;
      }
      if HasGerman(words, german) {
        return;
      }
      AddKeepsWellFormed(words, nextId, german, english, contextSentence, themeId, difficulty, now);
      words := [NewWord(nextId, german, english, contextSentence, themeId, difficulty, now)] + words;
      nextId := nextId + 1;
    }

    method RemoveWord(wordId: nat)
      requires Valid()
      modifies this
      ensures Valid() && nextId == old(nextId)
      ensures words == if signedIn then WithoutId(old(words), wordId) else old(words)
    {
      if !signedIn {
        return;
      }
      WithoutIdKeepsWellFormed(words, nextId, wordId);
      words := WithoutId(words, wordId);
    }

    method ReviewWord(wordId: nat, correct: bool, now: int)
      requires Valid()
      modifies this
      ensures Valid() && nextId == old(nextId)
      ensures words == if signedIn then AfterReview(old(words), wordId, correct, now) else old(words)
    {
      if !signedIn {
        return;
      }
      var found := IndexOf(words, wordId);
      if found.None? {
        return;
      }
      var word := words[found.value];
      var intervalDays := 1;
      if correct {
        var timesCorrect := word.timesCorrect + 1;
        if timesCorrect == 1 {
          intervalDays := 1;
        } else if timesCorrect == 2 {
          intervalDays := 3;
        } else if timesCorrect == 3 {
          intervalDays := 7;
        } else if timesCorrect == 4 {
          intervalDays := 14;
        } else {
          intervalDays := 30;
        }
      } else {
        intervalDays := 1;
      }
      assert intervalDays == IntervalDays(correct, word.timesCorrect);
      var nextReviewDate := now + intervalDays * 24 * 60 * 60 * 1000;
      var updated := word.(
        timesReviewed := word.timesReviewed + 1,
        timesCorrect := if correct then word.timesCorrect + 1 else word.timesCorrect,
        nextReview := nextReviewDate);
      assert updated == Reviewed(word, correct, now);
      ReviewKeepsWellFormed(words, nextId, wordId, correct, now);
      words := words[found.value := updated];
    }
  }
}
