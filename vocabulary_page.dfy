/** The vocabulary page: the word filter, the progress colour of each word, the mastered and
    learning counts, and the difficulty badge. */
module VocabularyPage {
  import opened Optional
  import Seqs
  import JsMath
  import V = VocabularyContext

  datatype WordFilter = All | Due | Level(difficulty: V.Difficulty)

  /** Whether `dueWords.some(w => w.id === word.id)`. */
  predicate InDue(due: seq<V.Word>, w: V.Word) {
    exists d :: d in due && d.id == w.id
  }

  predicate Keeps(f: WordFilter, due: seq<V.Word>, w: V.Word) {
    match f
    case All => true
    case Due => InDue(due, w)
    case Level(d) => w.difficulty == Some(d)
  }

  /** `filteredWords`: the words the filter keeps, in list order. */
  function Filtered(words: seq<V.Word>, due: seq<V.Word>, f: WordFilter): (r: seq<V.Word>)
    ensures |r| <= |words|
    ensures forall w :: w in r <==> w in words && Keeps(f, due, w)
  {
    if words == [] then []
    else
      var rest := Filtered(words[1..], due, f);
      if Keeps(f, due, words[0]) then [words[0]] + rest else rest
  }

  lemma {:induction false} FilterAllKeepsAll(words: seq<V.Word>, due: seq<V.Word>)
    ensures Filtered(words, due, All) == words
  {
    if words != [] {
      FilterAllKeepsAll(words[1..], due);
    }
  }

  /** With distinct ids, the `due` filter shows exactly the words due now. */
  lemma DueFilterIsDue(words: seq<V.Word>, nextId: nat, now: int)
    requires V.WellFormed(words, nextId)
    ensures forall w :: w in Filtered(words, V.DueWords(words, now), Due) <==> w in words && V.IsDue(w, now)
  {
    var due := V.DueWords(words, now);
    forall w | w in words ensures InDue(due, w) <==> V.IsDue(w, now) {
      if InDue(due, w) {
        var d :| d in due && d.id == w.id;
        assert d in words;
        var i :| 0 <= i < |words| && words[i] == d;
        var j :| 0 <= j < |words| && words[j] == w;
        assert i == j;
      } else {
        assert !(w in due);
      }
    }
  }

  /** A word without a difficulty is in no level filter, although its badge says beginner. */
  lemma NoDifficultyNotInLevelFilter(words: seq<V.Word>, due: seq<V.Word>, w: V.Word, d: V.Difficulty)
    requires w.difficulty.None?
    ensures w !in Filtered(words, due, Level(d))
    ensures Badge(ShownLevel(w)) == BeginnerBadge
  {
  }

  // ---------------------------------------------------------------------------------------
  // Per-word progress

  datatype ProgressColor = Gray | Yellow | LightGreen | Green

  /** `getProgressColor`: none right, one or two, three or four, five or more. */
  function ProgressColorOf(w: V.Word): (c: ProgressColor)
    ensures c == Gray <==> w.timesCorrect == 0
    ensures c == Yellow <==> 1 <= w.timesCorrect <= 2
    ensures c == LightGreen <==> 3 <= w.timesCorrect <= 4
    ensures c == Green <==> w.timesCorrect >= 5
  {
    if w.timesCorrect == 0 then Gray
    else if w.timesCorrect < 3 then Yellow
    else if w.timesCorrect < 5 then LightGreen
    else Green
  }

  /** The colour never goes back when a word gets more correct answers. */
  lemma ColorMonotone(w: V.Word, correct: bool, now: int)
    ensures ColorRank(ProgressColorOf(w)) <= ColorRank(ProgressColorOf(V.Reviewed(w, correct, now)))
  {
  }

  function ColorRank(c: ProgressColor): nat {
    match c
    case Gray => 0
    case Yellow => 1
    case LightGreen => 2
    case Green => 3
  }

  /** The red count: reviews that were not correct. */
  function IncorrectCount(w: V.Word): (n: int)
    ensures V.Sound(w) ==> n >= 0
    ensures n + w.timesCorrect == w.timesReviewed
  {
    w.timesReviewed - w.timesCorrect
  }

  /** The bar width: `Math.min(100, times_correct / 5 * 100)`. */
  function BarWidth(w: V.Word): (r: real)
    ensures 0.0 <= r <= 100.0
    ensures r == 100.0 <==> w.timesCorrect >= 5
    ensures w.timesCorrect < 5 ==> r == 20.0 * w.timesCorrect as real
  {
    JsMath.MinReal(100.0, (w.timesCorrect as real / 5.0) * 100.0)
  }

  // ---------------------------------------------------------------------------------------
  // The counts

  predicate IsMastered(w: V.Word) {
    w.timesCorrect >= 5
  }

  predicate IsLearning(w: V.Word) {
    0 < w.timesCorrect < 5
  }

  predicate IsUntouched(w: V.Word) {
    w.timesCorrect == 0
  }

  /** A word is mastered exactly when its bar is green, learning exactly when yellow or light
      green. */
  lemma CountsMatchColors(w: V.Word)
    ensures IsMastered(w) <==> ProgressColorOf(w) == Green
    ensures IsLearning(w) <==> ProgressColorOf(w) in {Yellow, LightGreen}
  {
  }

  /** Mastered, learning and untouched words partition the list. */
  lemma {:induction false} CountsPartition(words: seq<V.Word>)
    ensures Seqs.Count(words, IsMastered) + Seqs.Count(words, IsLearning) + Seqs.Count(words, IsUntouched) == |words|
  {
    if words != [] {
      CountsPartition(words[..|words| - 1]);
    }
  }

  /** No word is counted both mastered and learning. */
  lemma MasteredLearningDisjoint(w: V.Word)
    ensures !(IsMastered(w) && IsLearning(w))
  {
  }

  // ---------------------------------------------------------------------------------------
  // The difficulty badge

  datatype BadgeColor = BeginnerBadge | IntermediateBadge | AdvancedBadge

  function DifficultyName(d: V.Difficulty): string {
    match d
    case Beginner => "beginner"
    case Intermediate => "intermediate"
    case Advanced => "advanced"
  }

  /** `word.difficulty_level || 'beginner'`. */
  function ShownLevel(w: V.Word): string {
    match w.difficulty
    case Some(d) => DifficultyName(d)
    case None => "beginner"
  }

  /** `getDifficultyBadge`: the colours of the three levels; any other string gets the
      beginner colours. */
  function Badge(level: string): (b: BadgeColor)
    ensures level == "intermediate" ==> b == IntermediateBadge
    ensures level == "advanced" ==> b == AdvancedBadge
    ensures level != "intermediate" && level != "advanced" ==> b == BeginnerBadge
  {
    if level == "beginner" then BeginnerBadge
    else if level == "intermediate" then IntermediateBadge
    else if level == "advanced" then AdvancedBadge
    else BeginnerBadge
  }

  /** Each stored level shows its own badge. */
  lemma BadgeOfLevel(d: V.Difficulty)
    ensures Badge(DifficultyName(d)) == match d
      case Beginner => BeginnerBadge
      case Intermediate => IntermediateBadge
      case Advanced => AdvancedBadge
  {
  }

  /** The review session replaces the page only while some word is due. */
  predicate ShowsReview(showReview: bool, due: seq<V.Word>) {
    showReview && |due| > 0
  }
}
