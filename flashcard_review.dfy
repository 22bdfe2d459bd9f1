/** A flashcard session over the words that were due when it opened: each card is answered
    right or wrong, the answer goes to the vocabulary store, and the summary shows the count and
    the accuracy. */
module FlashcardReview {
  import opened Optional
  import JsMath
  import VocabularyContext

  /** The session's counters. `pending` says the card-advance timer has been set and has not
      fired yet. */
  datatype Counters = Counters(index: nat, reviewed: nat, correct: nat, reviewing: bool,
                               flipped: bool, pending: bool)

  const Opening := Counters(0, 0, 0, false, false, false)

  /** What every reachable state satisfies for a due list of `n` words: each answered card was
      counted once, the correct ones among them, and the index never passes the list. */
  predicate Consistent(c: Counters, n: nat) {
    c.correct <= c.reviewed
    && c.reviewed == c.index + (if c.pending then 1 else 0)
    && c.index <= n
    && (c.pending ==> c.reviewing && c.index < n)
  }

  /** The summary replaces the card once the index has left the due list. */
  predicate Finished(c: Counters, n: nat) {
    c.index >= n
  }

  /** `handleReview(correct)` on the counters. A request while a review is running is ignored;
      otherwise the answer is counted and the card is held until the timer fires. */
  function AfterReview(c: Counters, correct: bool): (r: Counters)
    ensures c.reviewing ==> r == c
    ensures !c.reviewing ==>
      r.reviewed == c.reviewed + 1 && r.correct == c.correct + (if correct then 1 else 0)
      && r.index == c.index && r.reviewing && r.pending && r.flipped == c.flipped
  {
    if c.reviewing then c
    else c.(reviewed := c.reviewed + 1,
            correct := if correct then c.correct + 1 else c.correct,
            reviewing := true, pending := true)
  }

  /** The timer: the next card, face up, and the buttons enabled again. */
  function AfterAdvance(c: Counters): (r: Counters)
    requires c.pending
    ensures r.index == c.index + 1 && !r.reviewing && !r.flipped && !r.pending
    ensures r.reviewed == c.reviewed && r.correct == c.correct
  {
    c.(index := c.index + 1, flipped := false, reviewing := false, pending := false)
  }

  /** A click on the card turns it over, except while a review is running. */
  function AfterFlip(c: Counters): (r: Counters)
    ensures r.flipped == (if c.reviewing then c.flipped else !c.flipped)
    ensures r.(flipped := c.flipped) == c
  {
    if c.reviewing then c else c.(flipped := !c.flipped)
  }

  lemma OpeningConsistent(n: nat)
    ensures Consistent(Opening, n)
  {
  }

  lemma ReviewKeepsConsistent(c: Counters, n: nat, correct: bool)
    requires Consistent(c, n) && !Finished(c, n)
    ensures Consistent(AfterReview(c, correct), n)
  {
  }

  lemma AdvanceKeepsConsistent(c: Counters, n: nat)
    requires Consistent(c, n) && c.pending
    ensures Consistent(AfterAdvance(c), n)
  {
  }

  lemma FlipKeepsConsistent(c: Counters, n: nat)
    requires Consistent(c, n)
    ensures Consistent(AfterFlip(c), n)
  {
  }

  /** One answered card: from an idle state, a review and its timer move to the next card with
      one more review counted, and one more correct answer exactly when it was right. */
  lemma AnswerOneCard(c: Counters, n: nat, correct: bool)
    requires Consistent(c, n) && !Finished(c, n) && !c.reviewing
    ensures var r := AfterAdvance(AfterReview(c, correct));
      r.index == c.index + 1 && r.reviewed == c.reviewed + 1
      && r.correct == c.correct + (if correct then 1 else 0) && !r.reviewing && Consistent(r, n)
  {
  }

  /** At the summary every due word was reviewed exactly once. */
  lemma FinishedReviewedAll(c: Counters, n: nat)
    requires Consistent(c, n) && Finished(c, n)
    ensures c.index == n && c.reviewed == n && !c.pending
  {
  }

  /** The summary's accuracy: `Math.round(correct / reviewed * 100)`, or 0 with no review. */
  function Accuracy(c: Counters): int {
    JsMath.Percent(c.correct, c.reviewed)
  }

  lemma AccuracyBounds(c: Counters, n: nat)
    requires Consistent(c, n)
    ensures 0 <= Accuracy(c) <= 100
    ensures c.reviewed > 0 && c.correct == c.reviewed ==> Accuracy(c) == 100
    ensures c.correct == 0 ==> Accuracy(c) == 0
  {
    JsMath.PercentBounds(c.correct, c.reviewed);
    if c.reviewed > 0 {
      JsMath.PercentAll(c.reviewed);
    }
  }

  /** The progress bar's width while a card is shown: `currentIndex / |dueWords| * 100`. */
  function ProgressPercent(index: nat, n: nat): (r: real)
    requires index < n
    ensures 0.0 <= r < 100.0
    ensures r * n as real == 100.0 * index as real
  {
    var q := index as real / n as real;
    assert q * n as real == index as real;
    q * 100.0
  }

  /** The bar grows with every card. */
  lemma ProgressIncreases(i: nat, j: nat, n: nat)
    requires i < j < n
    ensures ProgressPercent(i, n) < ProgressPercent(j, n)
  {
    var a := ProgressPercent(i, n);
    var b := ProgressPercent(j, n);
    assert a * n as real < b * n as real;
  }

  /** One answer followed by its timer, on the counters alone: the next card of a list that stays
      as it is. */
  function NextCard(c: Counters, correct: bool): (r: Counters)
    requires !c.reviewing
    ensures r.index == c.index + 1 && r.reviewed == c.reviewed + 1
    ensures r.correct == c.correct + (if correct then 1 else 0) && !r.reviewing && !r.pending
  {
    AfterAdvance(AfterReview(c, correct))
  }

  /** The number of right answers among `answers`. */
  function Rights(answers: seq<bool>): nat {
    if answers == [] then 0 else (if answers[0] then 1 else 0) + Rights(answers[1..])
  }

  // A reload after a saved review. The vocabulary page shows a spinner instead of the session
  // while the store reloads, so the session is unmounted; a new one is mounted over the reloaded
  // due list when that list is not empty, and the page shows the word list otherwise.

  /** What the vocabulary page shows once the learner has opened a review: the store's words, the
      mounted session's counters and the due list it renders. */
  datatype Review = Review(words: seq<VocabularyContext.Word>, c: Counters,
                           due: seq<VocabularyContext.Word>)

  /** A freshly mounted session over the words due at `now`. */
  function Open(words: seq<VocabularyContext.Word>, now: int): (r: Review)
    ensures r.words == words && r.c == Opening && r.due == VocabularyContext.DueWords(words, now)
  {
    Review(words, Opening, VocabularyContext.DueWords(words, now))
  }

  /** The page renders the session only while the due list is not empty. */
  predicate Shown(r: Review) {
    |r.due| > 0
  }

  /** "You've reviewed all N words": the session is shown and its index has left the list. */
  predicate ShowsSummary(r: Review) {
    Shown(r) && Finished(r.c, |r.due|)
  }

  /** The answer buttons accept a click: a card is shown and no review is running. */
  predicate Answerable(r: Review) {
    r.c.index < |r.due| && !r.c.reviewing
  }

  /** The card on screen answered at `now`, and then either the reload that follows a saved
      review, or (when the write failed and its error was swallowed) the timer moving on. */
  function AnswerCard(r: Review, correct: bool, saved: bool, now: int): (r': Review)
    requires Answerable(r)
    ensures !r'.c.reviewing
    ensures saved ==>
      r' == Open(VocabularyContext.AfterReview(r.words, r.due[r.c.index].id, correct, now), now)
    ensures !saved ==> r' == Review(r.words, NextCard(r.c, correct), r.due)
  {
    if saved then Open(VocabularyContext.AfterReview(r.words, r.due[r.c.index].id, correct, now), now)
    else Review(r.words, NextCard(r.c, correct), r.due)
  }

  /** One click on an answer button: whether it was right and whether its write was saved. */
  datatype Reply = Reply(correct: bool, saved: bool)

  /** A sequence of replies, each to the card on screen; the run stops once no card is shown. */
  function Run(r: Review, replies: seq<Reply>, now: int): Review
    requires !r.c.reviewing
    decreases |replies|
  {
    if replies == [] || r.c.index >= |r.due| then r
    else Run(AnswerCard(r, replies[0].correct, replies[0].saved, now), replies[1..], now)
  }

  function Corrects(replies: seq<Reply>): (r: seq<bool>)
    ensures |r| == |replies|
    ensures forall i :: 0 <= i < |replies| ==> r[i] == replies[i].correct
  {
    if replies == [] then [] else [replies[0].correct] + Corrects(replies[1..])
  }

  /** The due query on a list split around a due word. */
  lemma DueAroundDue(pre: seq<VocabularyContext.Word>, w: VocabularyContext.Word,
                     suf: seq<VocabularyContext.Word>, now: int)
    requires VocabularyContext.IsDue(w, now)
    ensures VocabularyContext.DueWords(pre + [w] + suf, now)
      == VocabularyContext.DueWords(pre, now) + [w] + VocabularyContext.DueWords(suf, now)
  {
    VocabularyContext.DueWordsAppend(pre + [w], suf, now);
    VocabularyContext.DueWordsAppend(pre, [w], now);
    assert [w][..0] == [];
  }

  /** The due query on a list split around a word that is not due. */
  lemma DueAroundNotDue(pre: seq<VocabularyContext.Word>, w: VocabularyContext.Word,
                        suf: seq<VocabularyContext.Word>, now: int)
    requires !VocabularyContext.IsDue(w, now)
    ensures VocabularyContext.DueWords(pre + [w] + suf, now)
      == VocabularyContext.DueWords(pre, now) + VocabularyContext.DueWords(suf, now)
  {
    VocabularyContext.DueWordsAppend(pre + [w], suf, now);
    VocabularyContext.DueWordsAppend(pre, [w], now);
    assert [w][..0] == [];
    assert VocabularyContext.DueWords(pre + [w], now) == VocabularyContext.DueWords(pre, now);
  }

  /** No word of `ws` has the id. */
  predicate NoneWithId(ws: seq<VocabularyContext.Word>, id: nat) {
    forall m :: 0 <= m < |ws| ==> ws[m].id != id
  }

  /** Removal of an id held by one word only, on a list split around that word. */
  lemma WithoutIdAround(pre: seq<VocabularyContext.Word>, w: VocabularyContext.Word,
                        suf: seq<VocabularyContext.Word>)
    requires NoneWithId(pre, w.id) && NoneWithId(suf, w.id)
    ensures VocabularyContext.WithoutId(pre + [w] + suf, w.id) == pre + suf
  {
    var id := w.id;
    VocabularyContext.WithoutAbsentId(pre, id);
    VocabularyContext.WithoutAbsentId(suf, id);
    VocabularyContext.WithoutIdAppend(pre + [w], suf, id);
    VocabularyContext.WithoutIdAppend(pre, [w], id);
    assert VocabularyContext.WithoutId([w], id) == [] by {
      assert [w][..|[w]| - 1] == [];
    }
    assert VocabularyContext.WithoutId(pre + [w], id) == pre;
  }

  /** The due word at position `k` sits in the store at the position `IndexOf` finds for its id. */
  lemma LocateDue(words: seq<VocabularyContext.Word>, nextId: nat, k: nat, now: int)
    returns (i: nat)
    requires VocabularyContext.WellFormed(words, nextId)
    requires k < |VocabularyContext.DueWords(words, now)|
    ensures var due := VocabularyContext.DueWords(words, now);
      i < |words| && words[i] == due[k] && VocabularyContext.IndexOf(words, due[k].id) == Some(i)
  {
    var due := VocabularyContext.DueWords(words, now);
    assert due[k] in words;
    var j :| 0 <= j < |words| && words[j] == due[k];
    i := VocabularyContext.IndexOf(words, due[k].id).value;
    assert i == j;
  }

  /** In a store with distinct ids, no due word before or after position `i` has its id. */
  lemma DueAroundOtherIds(words: seq<VocabularyContext.Word>, nextId: nat, i: nat, now: int)
    requires VocabularyContext.WellFormed(words, nextId) && i < |words|
    ensures NoneWithId(VocabularyContext.DueWords(words[..i], now), words[i].id)
    ensures NoneWithId(VocabularyContext.DueWords(words[i + 1..], now), words[i].id)
  {
    var pre, suf := words[..i], words[i + 1..];
    var dpre, dsuf := VocabularyContext.DueWords(pre, now), VocabularyContext.DueWords(suf, now);
    forall m | 0 <= m < |dpre| ensures dpre[m].id != words[i].id {
      assert dpre[m] in pre;
    }
    forall m | 0 <= m < |dsuf| ensures dsuf[m].id != words[i].id {
      assert dsuf[m] in suf;
      var q :| 0 <= q < |suf| && suf[q] == dsuf[m];
      assert words[i + 1 + q] == suf[q];
    }
  }

  /** A list with one position replaced, written out around that position. */
  lemma ReplaceAround<T>(s: seq<T>, i: nat, x: T)
    requires i < |s|
    ensures s == s[..i] + [s[i]] + s[i + 1..]
    ensures s[i := x] == s[..i] + [x] + s[i + 1..]
  {
  }

  /** A due word replaced by one that is not due leaves the due list without it. */
  lemma ReviewedAround(pre: seq<VocabularyContext.Word>, w: VocabularyContext.Word,
                       w': VocabularyContext.Word, suf: seq<VocabularyContext.Word>, now: int)
    requires VocabularyContext.IsDue(w, now) && !VocabularyContext.IsDue(w', now)
    requires NoneWithId(VocabularyContext.DueWords(pre, now), w.id)
    requires NoneWithId(VocabularyContext.DueWords(suf, now), w.id)
    ensures var due := VocabularyContext.DueWords(pre + [w] + suf, now);
      VocabularyContext.DueWords(pre + [w'] + suf, now) == VocabularyContext.WithoutId(due, w.id)
      && |VocabularyContext.DueWords(pre + [w'] + suf, now)| == |due| - 1
  {
    var dpre, dsuf := VocabularyContext.DueWords(pre, now), VocabularyContext.DueWords(suf, now);
    assert VocabularyContext.DueWords(pre + [w] + suf, now) == dpre + [w] + dsuf by {
      DueAroundDue(pre, w, suf, now);
    }
    assert VocabularyContext.DueWords(pre + [w'] + suf, now) == dpre + dsuf by {
      DueAroundNotDue(pre, w', suf, now);
    }
    assert VocabularyContext.WithoutId(dpre + [w] + dsuf, w.id) == dpre + dsuf by {
      WithoutIdAround(dpre, w, dsuf);
    }
    assert |dpre + dsuf| == |dpre + [w] + dsuf| - 1;
  }

  /** A saved review takes exactly the reviewed word off the due list: its next review is at least a
      day away. */
  lemma SavedReviewLeavesDueList(words: seq<VocabularyContext.Word>, nextId: nat, k: nat,
                                 correct: bool, now: int)
    requires VocabularyContext.WellFormed(words, nextId)
    requires k < |VocabularyContext.DueWords(words, now)|
    ensures var due := VocabularyContext.DueWords(words, now);
      var after := VocabularyContext.AfterReview(words, due[k].id, correct, now);
      VocabularyContext.DueWords(after, now) == VocabularyContext.WithoutId(due, due[k].id)
      && |VocabularyContext.DueWords(after, now)| == |due| - 1
      && VocabularyContext.WellFormed(after, nextId)
  {
    var i := LocateDue(words, nextId, k, now);
    var w := words[i];
    var w' := VocabularyContext.Reviewed(w, correct, now);
    ReplaceAround(words, i, w');
    DueAroundOtherIds(words, nextId, i, now);
    ReviewedAround(words[..i], w, w', words[i + 1..], now);
    VocabularyContext.ReviewKeepsWellFormed(words, nextId, w.id, correct, now);
  }

  /** As written, a saved answer never lets a session reach its summary: the page reopens a
      session at the first card of a due list one word shorter, with every counter back to zero. */
  lemma SavedAnswerReopens(r: Review, nextId: nat, correct: bool, now: int)
    requires VocabularyContext.WellFormed(r.words, nextId)
    requires r.due == VocabularyContext.DueWords(r.words, now) && Answerable(r)
    ensures var r' := AnswerCard(r, correct, true, now);
      r'.c == Opening && |r'.due| == |r.due| - 1
      && r'.due == VocabularyContext.DueWords(r'.words, now)
      && VocabularyContext.WellFormed(r'.words, nextId)
      && !ShowsSummary(r')
  {
    SavedReviewLeavesDueList(r.words, nextId, r.c.index, correct, now);
  }

  /** As written, answers whose writes are all saved never show the summary and never count past
      zero; after one answer per due word the page is back at the word list. */
  lemma {:induction false} SavedRunNeverSummarises(r: Review, nextId: nat, replies: seq<Reply>, now: int)
    requires VocabularyContext.WellFormed(r.words, nextId)
    requires r.due == VocabularyContext.DueWords(r.words, now) && r.c == Opening
    requires forall i :: 0 <= i < |replies| ==> replies[i].saved
    requires |replies| <= |r.due|
    ensures var r' := Run(r, replies, now);
      r'.c == Opening && |r'.due| == |r.due| - |replies| && !ShowsSummary(r')
      && (|replies| == |r.due| ==> !Shown(r'))
    decreases |replies|
  {
    if replies != [] {
      SavedAnswerReopens(r, nextId, replies[0].correct, now);
      var r1 := AnswerCard(r, replies[0].correct, true, now);
      SavedRunNeverSummarises(r1, nextId, replies[1..], now);
    }
  }

  /** Three due words answered with saves that go through: the summary is never shown and the page
      returns to the word list. */
  lemma ThreeSavedAnswersSkipSummary(words: seq<VocabularyContext.Word>, nextId: nat, now: int,
                                     a: bool, b: bool, c: bool)
    requires VocabularyContext.WellFormed(words, nextId)
    requires |VocabularyContext.DueWords(words, now)| == 3
    ensures var r := Run(Open(words, now), [Reply(a, true), Reply(b, true), Reply(c, true)], now);
      !Shown(r) && !ShowsSummary(r) && r.c.reviewed == 0
  {
    SavedRunNeverSummarises(Open(words, now), nextId, [Reply(a, true), Reply(b, true), Reply(c, true)], now);
  }

  /** The session as evidently intended: it walks the due list it opened with, whatever the store
      does meanwhile. `n` is that list's length. */
  function SnapshotRun(c: Counters, answers: seq<bool>, n: nat): Counters
    requires !c.reviewing
    decreases |answers|
  {
    if answers == [] || c.index >= n then c
    else SnapshotRun(NextCard(c, answers[0]), answers[1..], n)
  }

  /** In the intended session, one answer per due word reaches the summary with every word
      reviewed once and the right answers counted. */
  lemma {:induction false} SnapshotReviewsAll(c: Counters, answers: seq<bool>, n: nat)
    requires Consistent(c, n) && !c.reviewing
    requires c.index + |answers| == n
    ensures var r := SnapshotRun(c, answers, n);
      Finished(r, n) && r.index == n && r.reviewed == n && r.correct == c.correct + Rights(answers)
      && Consistent(r, n)
    decreases |answers|
  {
    if answers != [] {
      AnswerOneCard(c, n, answers[0]);
      SnapshotReviewsAll(NextCard(c, answers[0]), answers[1..], n);
    }
  }

  /** As written, when no write goes through (each error is swallowed and nothing reloads) the
      page walks its due list exactly as the intended session does and keeps the store's words. */
  lemma {:induction false} FailedRunIsSnapshot(r: Review, replies: seq<Reply>, now: int)
    requires !r.c.reviewing
    requires forall i :: 0 <= i < |replies| ==> !replies[i].saved
    ensures Run(r, replies, now) == Review(r.words, SnapshotRun(r.c, Corrects(replies), |r.due|), r.due)
    decreases |replies|
  {
    if replies != [] && r.c.index < |r.due| {
      assert Corrects(replies)[1..] == Corrects(replies[1..]);
      FailedRunIsSnapshot(AnswerCard(r, replies[0].correct, false, now), replies[1..], now);
    }
  }

  /** The session component. `dueWords` is the due list of the store as the page last rendered
      it; the page mounts the session only while that list is not empty. */
  class Session {
    var dueWords: seq<VocabularyContext.Word>
    var currentIndex: nat
    var isFlipped: bool
    var reviewedCount: nat
    var correctCount: nat
    var isReviewing: bool
    var advancePending: bool

    function State(): Counters
      reads this
    {
      Counters(currentIndex, reviewedCount, correctCount, isReviewing, isFlipped, advancePending)
    }

    ghost predicate Valid()
      reads this
    {
      Consistent(State(), |dueWords|)
    }

    /** `dueWords[currentIndex]`, which is missing once the session is over. */
    function CurrentWord(): (r: Option<VocabularyContext.Word>)
      reads this
      ensures r.Some? <==> currentIndex < |dueWords|
      ensures r.Some? ==> r.value == dueWords[currentIndex]
    {
      if currentIndex < |dueWords| then Some(dueWords[currentIndex]) else None
    }

    /** Mounted by the page when the learner opens a review and some word is due. */
    constructor (store: VocabularyContext.Provider, now: int)
      requires |VocabularyContext.DueWords(store.words, now)| > 0
      ensures Valid() && dueWords == VocabularyContext.DueWords(store.words, now)
      ensures State() == Opening
    {
      dueWords := VocabularyContext.DueWords(store.words, now);
      currentIndex := 0;
      isFlipped := false;
      reviewedCount := 0;
      correctCount := 0;
      isReviewing := false;
      advancePending := false;
    }

    method Flip()
      requires Valid()
      modifies this
      ensures Valid() && State() == AfterFlip(old(State())) && dueWords == old(dueWords)
    {
      if !isReviewing {
        isFlipped := !isFlipped;
      }
    }

    /** The "Show Answer" button. */
    method ShowAnswer()
      requires Valid()
      modifies this
      ensures Valid() && State() == old(State()).(flipped := true) && dueWords == old(dueWords)
    {
      isFlipped := true;
    }

    /** `handleReview`: the answer buttons exist only while a card is shown. `saved` is the
        outcome of the database write. A saved review for a signed-in learner is followed by the
        reload that unmounts this session; the page's next session is this object reset to the
        opening counters over the reloaded due list. Otherwise (`reviewWord` returned early, or
        swallowed the write's error) the store is untouched and the counters advance. */
    method HandleReview(correct: bool, store: VocabularyContext.Provider, now: int, saved: bool)
      returns (accepted: bool)
      requires Valid() && store.Valid() && currentIndex < |dueWords|
      requires dueWords == VocabularyContext.DueWords(store.words, now)
      modifies this, store
      ensures Valid() && store.Valid() && store.nextId == old(store.nextId)
      ensures accepted == !old(isReviewing)
      ensures !accepted ==>
        State() == old(State()) && dueWords == old(dueWords) && store.words == old(store.words)
      ensures accepted && saved && store.signedIn ==>
        store.words == VocabularyContext.AfterReview(old(store.words), old(dueWords[currentIndex]).id, correct, now)
        && dueWords == VocabularyContext.DueWords(store.words, now)
        && |dueWords| == |old(dueWords)| - 1
        && State() == Opening
      ensures accepted && !(saved && store.signedIn) ==>
        store.words == old(store.words) && dueWords == old(dueWords)
        && State() == AfterReview(old(State()), correct)
    {
      if isReviewing {
        return false;
      }
      accepted := true;
      isReviewing := true;
      if saved && store.signedIn {
        SavedReviewLeavesDueList(store.words, store.nextId, currentIndex, correct, now);
        store.ReviewWord(dueWords[currentIndex].id, correct, now);
        Remount(store, now);
        return;
      }
      reviewedCount := reviewedCount + 1;
      if correct {
        correctCount := correctCount + 1;
      }
      advancePending := true;
    }

    /** The page's reload after a saved review: the spinner replaces this session, and the page
        mounts a new one over the reloaded due list, modelled as this object reset. */
    method Remount(store: VocabularyContext.Provider, now: int)
      modifies this
      ensures Valid() && dueWords == VocabularyContext.DueWords(store.words, now)
      ensures State() == Opening
    {
      dueWords := VocabularyContext.DueWords(store.words, now);
      currentIndex := 0;
      isFlipped := false;
      reviewedCount := 0;
      correctCount := 0;
      isReviewing := false;
      advancePending := false;
    }

    /** The timer set by a review that did not reload fires. */
    method AdvanceCard()
      requires Valid() && advancePending
      modifies this
      ensures Valid() && State() == AfterAdvance(old(State())) && dueWords == old(dueWords)
    {
      currentIndex := currentIndex + 1;
      isFlipped := false;
      isReviewing := false;
      advancePending := false;
    }

    /** The summary's accuracy, shown when the session is mounted and past its last card: reached
        only through reviews that did not reload, each of which this session counted. */
    method SummaryAccuracy() returns (accuracy: int)
      requires Valid() && 0 < |dueWords| <= currentIndex
      ensures accuracy == Accuracy(State())
      ensures 0 <= accuracy <= 100 && reviewedCount == |dueWords| == currentIndex
    {
      AccuracyBounds(State(), |dueWords|);
      FinishedReviewedAll(State(), |dueWords|);
      accuracy := if reviewedCount > 0 then JsMath.Round((correctCount as real / reviewedCount as real) * 100.0) else 0;
    }
  }
}
