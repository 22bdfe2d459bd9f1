/** The lesson-progress store: the learner's CEFR level and adaptive settings, the lesson
    catalogue, one progress record per started lesson, and per-topic grammar mastery.
    Persistence is the in-memory state itself (a write followed by a reload leaves the state
    exactly as stated here). */
module LearningContext {
  import opened Optional
  import Text
  import Seqs

  datatype Level = A1 | A2 | B1 | B2 | C1 | C2

  /** The position of a level in `['A1', 'A2', 'B1', 'B2', 'C1', 'C2']`. */
  function LevelIndex(l: Level): (i: nat)
    ensures i < 6
  {
    match l
    case A1 => 0
    case A2 => 1
    case B1 => 2
    case B2 => 3
    case C1 => 4
    case C2 => 5
  }

  function LevelName(l: Level): (s: string)
    ensures |s| == 2
  {
    match l
    case A1 => "A1"
    case A2 => "A2"
    case B1 => "B1"
    case B2 => "B2"
    case C1 => "C1"
    case C2 => "C2"
  }

  /** Reads back a level name. */
  function ParseLevel(s: string): (r: Option<Level>)
    ensures r.Some? ==> LevelName(r.value) == s
  {
    if s == "A1" then Some(A1)
    else if s == "A2" then Some(A2)
    else if s == "B1" then Some(B1)
    else if s == "B2" then Some(B2)
    else if s == "C1" then Some(C1)
    else if s == "C2" then Some(C2)
    else None
  }

  lemma ParseLevelName(l: Level)
    ensures ParseLevel(LevelName(l)) == Some(l)
  {
  }

  datatype Preference = Simple | Moderate | Complex | Auto

  /** The mastery tier of a grammar topic. */
  datatype Tier = Beginner | Intermediate | Advanced | Mastered

  /** The status of a lesson progress record. */
  datatype Status = NotStarted | InProgress | Completed | Mastered

  /** A `lesson_plans` row, reduced to the fields the progress logic reads. */
  datatype Lesson = Lesson(id: string, level: Level, lessonNumber: nat, title: string, themeId: string)

  /** A `user_lesson_progress` row. Times are milliseconds since the epoch. `savedStage` and
      `savedStages` are the `current_stage` / `completed_stages` values the lesson screen tries
      to restore; no operation of this store writes them. */
  datatype LessonProgress = LessonProgress(
    lessonId: string,
    status: Status,
    score: real,
    attempts: nat,
    startedAt: Option<int>,
    completedAt: Option<int>,
    lastAccessed: Option<int>,
    savedStage: Option<int>,
    savedStages: Option<seq<int>>)

  /** A `grammar_mastery_tracking` row. */
  datatype TopicMastery = TopicMastery(topic: string, correctUses: nat, incorrectUses: nat, tier: Tier)

  /** The learner profile columns read on load; `None` stands for a null column. */
  datatype Profile = Profile(
    level: Level,
    avgAccuracy: Option<real>,
    vocabularySize: Option<nat>,
    preference: Option<Preference>)

  /** An entry of the bundled lesson catalogue used when the database has no lessons. */
  datatype CatalogEntry = CatalogEntry(level: Level, lessonNumber: nat, title: string, themeId: string)

  /** The value the store gives `score` and `attempts` on a freshly inserted progress row. */
  const DefaultScore: real := 0.0
  const DefaultAttempts: nat := 0

  // ---------------------------------------------------------------- local lesson ids

  /** `lesson-${level}-${lesson_number}`, the id of a bundled lesson. */
  function LocalLessonId(level: Level, lessonNumber: nat): (id: string)
    ensures |id| >= 11 && id[..7] == "lesson-" && id[9] == '-'
  {
    "lesson-" + LevelName(level) + "-" + Text.NatToString(lessonNumber)
  }

  predicate AllDigits(s: string) {
    forall i :: 0 <= i < |s| ==> '0' <= s[i] <= '9'
  }

  /** Reads back the level and lesson number of a bundled lesson id. */
  function ParseLocalLessonId(id: string): Option<(Level, nat)>
  {
    if |id| >= 11 && id[..7] == "lesson-" && id[9] == '-' && AllDigits(id[10..]) then
      match ParseLevel(id[7..9])
      case None => None
      case Some(l) => Some((l, Text.ParseNat(id[10..])))
    else None
  }

  lemma {:induction false} ParseLocalLessonIdRoundTrip(level: Level, lessonNumber: nat)
    ensures ParseLocalLessonId(LocalLessonId(level, lessonNumber)) == Some((level, lessonNumber))
  {
    var id := LocalLessonId(level, lessonNumber);
    assert id[7..9] == LevelName(level);
    assert id[10..] == Text.NatToString(lessonNumber);
    ParseLevelName(level);
    Text.ParseNatToString(lessonNumber);
  }

  /** Two bundled lessons get the same id only when they have the same level and number. */
  lemma LocalLessonIdInjective(l1: Level, n1: nat, l2: Level, n2: nat)
    requires LocalLessonId(l1, n1) == LocalLessonId(l2, n2)
    ensures l1 == l2 && n1 == n2
  {
    ParseLocalLessonIdRoundTrip(l1, n1);
    ParseLocalLessonIdRoundTrip(l2, n2);
  }

  /** The bundled catalogue as lessons, each with its local id. */
  function LocalLessons(catalog: seq<CatalogEntry>): (r: seq<Lesson>)
    ensures |r| == |catalog|
    ensures forall i :: 0 <= i < |r| ==>
      r[i] == Lesson(LocalLessonId(catalog[i].level, catalog[i].lessonNumber),
                     catalog[i].level, catalog[i].lessonNumber, catalog[i].title, catalog[i].themeId)
  {
    seq(|catalog|, i requires 0 <= i < |catalog| =>
      Lesson(LocalLessonId(catalog[i].level, catalog[i].lessonNumber),
             catalog[i].level, catalog[i].lessonNumber, catalog[i].title, catalog[i].themeId))
  }

  /** A catalogue with one entry per (level, lesson number) pair yields lessons with distinct ids. */
  lemma LocalLessonIdsDistinct(catalog: seq<CatalogEntry>)
    requires forall i, j :: 0 <= i < j < |catalog| ==>
      (catalog[i].level, catalog[i].lessonNumber) != (catalog[j].level, catalog[j].lessonNumber)
    ensures forall i, j :: 0 <= i < j < |catalog| ==> LocalLessons(catalog)[i].id != LocalLessons(catalog)[j].id
  {
    var r := LocalLessons(catalog);
    forall i, j | 0 <= i < j < |catalog|
      ensures r[i].id != r[j].id
    {
      if r[i].id == r[j].id {
        LocalLessonIdInjective(catalog[i].level, catalog[i].lessonNumber, catalog[j].level, catalog[j].lessonNumber);
      }
    }
  }

  // ---------------------------------------------------------------- lesson progress

  predicate IsDone(s: Status) {
    s == Completed || s == Status.Mastered
  }

  function StatusRank(s: Status): nat {
    match s
    case NotStarted => 0
    case InProgress => 1
    case Completed => 2
    case Mastered => 3
  }

  /** `userLessonProgress.find(p => p.lesson_id === lessonId)`, as a position. */
  function FindProgress(ps: seq<LessonProgress>, lessonId: string): (r: Option<nat>)
    ensures r.Some? ==> r.value < |ps| && ps[r.value].lessonId == lessonId
    ensures r.Some? ==> forall j :: 0 <= j < r.value ==> ps[j].lessonId != lessonId
    ensures r.None? ==> forall j :: 0 <= j < |ps| ==> ps[j].lessonId != lessonId
  {
    Seqs.FirstIndex(ps, (p: LessonProgress) => p.lessonId == lessonId)
  }

  /** Two progress lists with the same lesson ids position by position find the same record. */
  lemma FindProgressSameIds(a: seq<LessonProgress>, b: seq<LessonProgress>, lessonId: string)
    requires |a| == |b| && forall j :: 0 <= j < |a| ==> a[j].lessonId == b[j].lessonId
    ensures FindProgress(a, lessonId) == FindProgress(b, lessonId)
  {
  }

  /** Whether the learner's record for a lesson marks it completed or mastered. */
  predicate DoneIn(ps: seq<LessonProgress>, lessonId: string) {
    match FindProgress(ps, lessonId)
    case None => false
    case Some(k) => IsDone(ps[k].status)
  }

  /** The status a final score earns: mastered from 90, completed from 70, else still in progress. */
  function StatusFor(score: real): (s: Status)
    ensures s != NotStarted
    ensures IsDone(s) <==> score >= 70.0
  {
    if score >= 90.0 then Status.Mastered
    else if score >= 70.0 then Completed
    else InProgress
  }

  /** A higher score never earns a lower status. */
  lemma StatusForMonotone(lo: real, hi: real)
    requires lo <= hi
    ensures StatusRank(StatusFor(lo)) <= StatusRank(StatusFor(hi))
  {
  }

  /** The progress records after `startLesson(lessonId)` at time `now`. */
  function AfterStart(ps: seq<LessonProgress>, lessonId: string, now: int): (r: seq<LessonProgress>)
    ensures FindProgress(ps, lessonId).Some? ==> |r| == |ps|
    ensures FindProgress(ps, lessonId).None? ==> |r| == |ps| + 1 && r[..|ps|] == ps
    ensures forall j :: 0 <= j < |ps| ==> r[j].lessonId == ps[j].lessonId
  {
    match FindProgress(ps, lessonId)
    case Some(k) =>
      var p := ps[k];
      ps[k := p.(status := InProgress, startedAt := Some(p.startedAt.GetOr(now)),
                 lastAccessed := Some(now), attempts := p.attempts + 1)]
    case None =>
      ps + [LessonProgress(lessonId, InProgress, DefaultScore, DefaultAttempts, Some(now), None, None, None, None)]
  }

  /** After starting a lesson its record exists and is in progress; an existing record counts
      one more attempt and keeps its first start time, a new one starts now. No other record
      changes. */
  lemma StartRecord(ps: seq<LessonProgress>, lessonId: string, now: int)
    ensures var r := AfterStart(ps, lessonId, now);
      FindProgress(r, lessonId).Some?
      && var p := r[FindProgress(r, lessonId).value];
      p.status == InProgress
      && p.startedAt.Some?
      && p.savedStage == (if FindProgress(ps, lessonId).Some? then ps[FindProgress(ps, lessonId).value].savedStage else None)
      && (FindProgress(ps, lessonId).Some? ==>
            var old_ := ps[FindProgress(ps, lessonId).value];
            p.attempts == old_.attempts + 1 && p.score == old_.score
            && (old_.startedAt.Some? ==> p.startedAt == old_.startedAt)
            && (old_.startedAt.None? ==> p.startedAt == Some(now)))
      && (FindProgress(ps, lessonId).None? ==>
            p.attempts == DefaultAttempts && p.startedAt == Some(now) && p.completedAt.None?)
    ensures var r := AfterStart(ps, lessonId, now);
      forall j :: 0 <= j < |ps| && ps[j].lessonId != lessonId ==> r[j] == ps[j]
  {
    var r := AfterStart(ps, lessonId, now);
    FindProgressSameIds(ps, r[..|ps|], lessonId);
    if FindProgress(ps, lessonId).None? {
      assert r[|ps|].lessonId == lessonId;
    }
  }

  /** The progress records after `completeLesson(lessonId, score)` at time `now`; without a
      record for the lesson nothing happens. */
  function AfterComplete(ps: seq<LessonProgress>, lessonId: string, score: real, now: int): (r: seq<LessonProgress>)
    ensures |r| == |ps|
    ensures forall j :: 0 <= j < |ps| ==> r[j].lessonId == ps[j].lessonId
    ensures FindProgress(ps, lessonId).None? ==> r == ps
  {
    match FindProgress(ps, lessonId)
    case None => ps
    case Some(k) =>
      var status := StatusFor(score);
      ps[k := ps[k].(status := status, score := score,
                     completedAt := if IsDone(status) then Some(now) else None,
                     lastAccessed := Some(now))]
  }

  /** Completing a started lesson records the score and the status it earns, stamps the
      completion time exactly when that status is completed or mastered, keeps the attempt count
      and start time, and changes no other record. */
  lemma CompleteRecord(ps: seq<LessonProgress>, lessonId: string, score: real, now: int)
    requires FindProgress(ps, lessonId).Some?
    ensures var r := AfterComplete(ps, lessonId, score, now);
      var k := FindProgress(ps, lessonId).value;
      FindProgress(r, lessonId) == Some(k)
      && r[k].status == StatusFor(score) && r[k].score == score
      && (r[k].completedAt.Some? <==> score >= 70.0)
      && r[k].attempts == ps[k].attempts && r[k].startedAt == ps[k].startedAt
      && (forall j :: 0 <= j < |ps| && j != k ==> r[j] == ps[j])
  {
    FindProgressSameIds(ps, AfterComplete(ps, lessonId, score, now), lessonId);
  }

  /** Completing the same lesson twice with the same score at the same time is completing it once. */
  lemma CompleteIdempotent(ps: seq<LessonProgress>, lessonId: string, score: real, now: int)
    ensures AfterComplete(AfterComplete(ps, lessonId, score, now), lessonId, score, now)
         == AfterComplete(ps, lessonId, score, now)
  {
    FindProgressSameIds(ps, AfterComplete(ps, lessonId, score, now), lessonId);
  }

  /** Neither operation writes the saved stage columns: when no record carries them, none does after. */
  predicate NoSavedStages(ps: seq<LessonProgress>) {
    forall j :: 0 <= j < |ps| ==> ps[j].savedStage.None? && ps[j].savedStages.None?
  }

  lemma StartKeepsNoSavedStages(ps: seq<LessonProgress>, lessonId: string, now: int)
    requires NoSavedStages(ps)
    ensures NoSavedStages(AfterStart(ps, lessonId, now))
  {
  }

  lemma CompleteKeepsNoSavedStages(ps: seq<LessonProgress>, lessonId: string, score: real, now: int)
    requires NoSavedStages(ps)
    ensures NoSavedStages(AfterComplete(ps, lessonId, score, now))
  {
  }

  // ---------------------------------------------------------------- grammar mastery

  /** `(correct / total) * 100 >= percent`. */
  predicate AccuracyAtLeast(correct: nat, total: nat, percent: real)
    requires total > 0
  {
    (correct as real / total as real) * 100.0 >= percent
  }

  /** The accuracy threshold as a comparison of integers. */
  lemma AccuracyLinear(correct: nat, total: nat, percent: nat)
    requires total > 0
    ensures AccuracyAtLeast(correct, total, percent as real) <==> 100 * correct >= percent * total
  {
    var q := correct as real / total as real;
    assert q * total as real == correct as real;
    assert (q * 100.0) * total as real == (100 * correct) as real;
    if q * 100.0 >= percent as real {
      assert (q * 100.0) * total as real >= percent as real * total as real;
    } else {
      assert (q * 100.0) * total as real < percent as real * total as real;
    }
  }

  /** The tier of a topic used correctly `correct` and incorrectly `incorrect` times. */
  function TierFor(correct: nat, incorrect: nat): Tier
    requires correct + incorrect > 0
  {
    var total := correct + incorrect;
    if correct >= 20 && AccuracyAtLeast(correct, total, 90.0) then Tier.Mastered
    else if correct >= 10 && AccuracyAtLeast(correct, total, 80.0) then Advanced
    else if correct >= 5 && AccuracyAtLeast(correct, total, 70.0) then Intermediate
    else Beginner
  }

  function TierRank(t: Tier): nat {
    match t
    case Beginner => 0
    case Intermediate => 1
    case Advanced => 2
    case Mastered => 3
  }

  /** The tier rule in integer arithmetic: each tier needs a minimum number of correct uses and
      a minimum ratio of correct to incorrect uses. */
  lemma TierForLinear(correct: nat, incorrect: nat)
    requires correct + incorrect > 0
    ensures TierFor(correct, incorrect) == Tier.Mastered <==> correct >= 20 && correct >= 9 * incorrect
    ensures TierFor(correct, incorrect) == Advanced <==>
      !(correct >= 20 && correct >= 9 * incorrect) && correct >= 10 && correct >= 4 * incorrect
    ensures TierFor(correct, incorrect) == Intermediate <==>
      !(correct >= 10 && correct >= 4 * incorrect) && correct >= 5 && 3 * correct >= 7 * incorrect
  {
    var total := correct + incorrect;
    AccuracyLinear(correct, total, 90);
    AccuracyLinear(correct, total, 80);
    AccuracyLinear(correct, total, 70);
  }

  /** One more correct use never lowers the tier. */
  lemma {:induction false} TierMonotoneInCorrect(correct: nat, incorrect: nat)
    requires correct + incorrect > 0
    ensures TierRank(TierFor(correct, incorrect)) <= TierRank(TierFor(correct + 1, incorrect))
  {
    TierForLinear(correct, incorrect);
    TierForLinear(correct + 1, incorrect);
  }

  /** One more incorrect use never raises the tier. */
  lemma {:induction false} TierAntitoneInIncorrect(correct: nat, incorrect: nat)
    requires correct + incorrect > 0
    ensures TierRank(TierFor(correct, incorrect + 1)) <= TierRank(TierFor(correct, incorrect))
  {
    TierForLinear(correct, incorrect);
    TierForLinear(correct, incorrect + 1);
  }

  /** The tier boundaries: twenty flawless uses master a topic, nineteen do not; 20 correct
      out of 23 is advanced; 5 out of 7 is intermediate; four flawless uses are beginner. */
  lemma {:induction false} TierBoundaries()
    ensures TierFor(20, 0) == Tier.Mastered && TierFor(19, 0) == Advanced
    ensures TierFor(20, 3) == Advanced && TierFor(5, 2) == Intermediate && TierFor(4, 0) == Beginner
  {
    TierForLinear(20, 0);
    TierForLinear(19, 0);
    TierForLinear(20, 3);
    TierForLinear(5, 2);
    TierForLinear(4, 0);
  }

  /** A topic used incorrectly more often than correctly is always at the beginner tier. */
  lemma {:induction false} MoreWrongIsBeginner(correct: nat, incorrect: nat)
    requires incorrect > correct
    ensures TierFor(correct, incorrect) == Beginner
  {
    TierForLinear(correct, incorrect);
  }

  /** Every record's tier is the one its counters earn. */
  predicate MasteryConsistent(ms: seq<TopicMastery>) {
    forall j :: 0 <= j < |ms| ==>
      ms[j].correctUses + ms[j].incorrectUses > 0
      && ms[j].tier == TierFor(ms[j].correctUses, ms[j].incorrectUses)
  }

  function FindTopic(ms: seq<TopicMastery>, topic: string): (r: Option<nat>)
    ensures r.Some? ==> r.value < |ms| && ms[r.value].topic == topic
    ensures r.Some? ==> forall j :: 0 <= j < r.value ==> ms[j].topic != topic
    ensures r.None? ==> forall j :: 0 <= j < |ms| ==> ms[j].topic != topic
  {
    Seqs.FirstIndex(ms, (m: TopicMastery) => m.topic == topic)
  }

  /** The mastery records after `updateGrammarMastery(topic, correct)`. */
  function AfterPractice(ms: seq<TopicMastery>, topic: string, correct: bool): (r: seq<TopicMastery>)
    ensures FindTopic(ms, topic).Some? ==> |r| == |ms|
    ensures FindTopic(ms, topic).None? ==> |r| == |ms| + 1 && r[..|ms|] == ms
    ensures forall j :: 0 <= j < |ms| ==> r[j].topic == ms[j].topic
  {
    match FindTopic(ms, topic)
    case Some(k) =>
      var c := ms[k].correctUses + (if correct then 1 else 0);
      var i := ms[k].incorrectUses + (if correct then 0 else 1);
      ms[k := ms[k].(correctUses := c, incorrectUses := i, tier := TierFor(c, i))]
    case None =>
      ms + [TopicMastery(topic, if correct then 1 else 0, if correct then 0 else 1, Beginner)]
  }

  /** Two mastery lists with the same topics position by position find the same record. */
  lemma FindTopicSameTopics(a: seq<TopicMastery>, b: seq<TopicMastery>, topic: string)
    requires |a| == |b| && forall j :: 0 <= j < |a| ==> a[j].topic == b[j].topic
    ensures FindTopic(a, topic) == FindTopic(b, topic)
  {
  }

  /** Practising a topic counts exactly one use of the right kind on its record and leaves every
      other record unchanged. */
  lemma PracticeCounts(ms: seq<TopicMastery>, topic: string, correct: bool)
    ensures var r := AfterPractice(ms, topic, correct);
      FindTopic(r, topic).Some?
      && var k := FindTopic(r, topic).value;
      var before := if FindTopic(ms, topic).Some? then ms[FindTopic(ms, topic).value] else TopicMastery(topic, 0, 0, Beginner);
      r[k].correctUses == before.correctUses + (if correct then 1 else 0)
      && r[k].incorrectUses == before.incorrectUses + (if correct then 0 else 1)
      && r[k].tier == (if FindTopic(ms, topic).Some? then TierFor(r[k].correctUses, r[k].incorrectUses)
                       else Beginner)
    ensures var r := AfterPractice(ms, topic, correct);
      forall j :: 0 <= j < |ms| && ms[j].topic != topic ==> r[j] == ms[j]
  {
    var r := AfterPractice(ms, topic, correct);
    FindTopicSameTopics(ms, r[..|ms|], topic);
    if FindTopic(ms, topic).None? {
      assert r[|ms|].topic == topic;
    }
  }

  /** Practice keeps every record's tier equal to the tier its counters earn. */
  lemma {:induction false} PracticeKeepsConsistent(ms: seq<TopicMastery>, topic: string, correct: bool)
    requires MasteryConsistent(ms)
    ensures MasteryConsistent(AfterPractice(ms, topic, correct))
  {
    TierForLinear(1, 0);
    TierForLinear(0, 1);
  }

  /** The topics the prompt asks to focus on, in record order. */
  function WeakTopics(ms: seq<TopicMastery>): (r: seq<string>)
    ensures |r| <= |ms|
    ensures forall t :: t in r <==> exists m :: m in ms && m.topic == t && m.tier == Beginner && m.incorrectUses > m.correctUses
  {
    if ms == [] then []
    else
      var m := ms[|ms| - 1];
      assert ms == ms[..|ms| - 1] + [m];
      WeakTopics(ms[..|ms| - 1]) + (if m.tier == Beginner && m.incorrectUses > m.correctUses then [m.topic] else [])
  }

  lemma {:induction false} WeakTopicsAppend(a: seq<TopicMastery>, b: seq<TopicMastery>)
    ensures WeakTopics(a + b) == WeakTopics(a) + WeakTopics(b)
    decreases |b|
  {
    if b == [] {
      assert a + b == a;
    } else {
      assert (a + b)[..|a + b| - 1] == a + b[..|b| - 1];
      WeakTopicsAppend(a, b[..|b| - 1]);
    }
  }

  /** When tiers are consistent, a topic is weak exactly when it was used incorrectly more often
      than correctly: the beginner-tier test adds nothing. */
  lemma WeakTopicsConsistent(ms: seq<TopicMastery>, t: string)
    requires MasteryConsistent(ms)
    ensures t in WeakTopics(ms) <==> exists j :: 0 <= j < |ms| && ms[j].topic == t && ms[j].incorrectUses > ms[j].correctUses
  {
    if exists j :: 0 <= j < |ms| && ms[j].topic == t && ms[j].incorrectUses > ms[j].correctUses {
      var j :| 0 <= j < |ms| && ms[j].topic == t && ms[j].incorrectUses > ms[j].correctUses;
      MoreWrongIsBeginner(ms[j].correctUses, ms[j].incorrectUses);
      assert ms[j] in ms;
    }
    if t in WeakTopics(ms) {
      var m :| m in ms && m.topic == t && m.tier == Beginner && m.incorrectUses > m.correctUses;
      var j :| 0 <= j < |ms| && ms[j] == m;
    }
  }

  // ---------------------------------------------------------------- adaptive prompt

  function LevelDescription(l: Level): string {
    match l
    case A1 => "beginner level (A1) - use simple present tense, basic vocabulary, short sentences"
    case A2 => "elementary level (A2) - use present and past tense, common vocabulary, simple compound sentences"
    case B1 => "intermediate level (B1) - use various tenses, more complex vocabulary, compound and complex sentences"
    case B2 => "upper-intermediate level (B2) - use advanced grammar structures, idiomatic expressions, sophisticated vocabulary"
    case C1 => "advanced level (C1) - use nuanced expressions, complex grammatical structures, abstract concepts"
    case C2 => "mastery level (C2) - use native-like proficiency with subtle nuances and sophisticated discourse"
  }

  function PreferenceText(p: Preference): string {
    match p
    case Simple => "Keep responses simple and clear"
    case Moderate => "Use moderate complexity with some challenging elements"
    case Complex => "Use advanced and challenging language"
    case Auto => ""
  }

  const LevelIntro: string := "The user is at "
  const PerformingWell: string := "The user is performing well, so gradually introduce more advanced concepts. "
  const Struggling: string := "The user is struggling, so keep things simple and provide more support. "
  const FocusIntro: string := "Focus on helping with these grammar topics: "

  function LevelSentence(l: Level): string {
    LevelIntro + LevelDescription(l) + ". "
  }

  /** The complexity sentence: chosen from the accuracy in auto mode, else the fixed preference text. */
  function Adjustment(p: Preference, avgAccuracy: real): string {
    if p == Auto then
      if avgAccuracy >= 85.0 then PerformingWell
      else if avgAccuracy < 70.0 then Struggling
      else ""
    else PreferenceText(p) + ". "
  }

  function FocusSentence(ms: seq<TopicMastery>): string {
    var weak := WeakTopics(ms);
    if |weak| > 0 then FocusIntro + Text.Join(weak, ", ") + ". " else ""
  }

  /** The system-prompt fragment `getAdaptiveDifficultyPrompt` returns. */
  function DifficultyPrompt(l: Level, avgAccuracy: real, p: Preference, ms: seq<TopicMastery>): string {
    LevelSentence(l) + Adjustment(p, avgAccuracy) + FocusSentence(ms)
  }

  /** The prompt always opens with the sentence describing the learner's level. */
  lemma PromptOpensWithLevel(l: Level, a: real, p: Preference, ms: seq<TopicMastery>)
    ensures LevelSentence(l) <= DifficultyPrompt(l, a, p, ms)
  {
  }

  /** An explicit preference makes the prompt independent of the accuracy. */
  lemma ExplicitPreferenceIgnoresAccuracy(l: Level, a1: real, a2: real, p: Preference, ms: seq<TopicMastery>)
    requires p != Auto
    ensures DifficultyPrompt(l, a1, p, ms) == DifficultyPrompt(l, a2, p, ms)
  {
  }

  /** In auto mode the accuracy picks exactly one of three bands: from 85 the "performing
      well" sentence, below 70 the "struggling" sentence, in between no sentence. */
  lemma AutoAdjustmentBands(a: real)
    ensures a >= 85.0 ==> Adjustment(Auto, a) == PerformingWell
    ensures a < 70.0 ==> Adjustment(Auto, a) == Struggling
    ensures 70.0 <= a < 85.0 ==> Adjustment(Auto, a) == ""
  {
  }

  /** The focus sentence appears exactly when some topic is weak. */
  lemma FocusIffWeak(ms: seq<TopicMastery>)
    ensures FocusSentence(ms) == "" <==> WeakTopics(ms) == []
  {
  }

  /** A learner at 95% accuracy who switches from auto to simple trades the "performing well"
      sentence for the simplicity instruction; the rest of the prompt stays. */
  lemma AutoToSimpleExample(l: Level, ms: seq<TopicMastery>)
    ensures DifficultyPrompt(l, 95.0, Auto, ms) == LevelSentence(l) + PerformingWell + FocusSentence(ms)
    ensures DifficultyPrompt(l, 95.0, Simple, ms) == LevelSentence(l) + "Keep responses simple and clear. " + FocusSentence(ms)
  {
  }

  // ---------------------------------------------------------------- recommended lessons

  /** The lessons at the learner's level that are not completed or mastered, in catalogue order. */
  function Candidates(lessons: seq<Lesson>, ps: seq<LessonProgress>, level: Level): (r: seq<Lesson>)
    ensures |r| <= |lessons|
    ensures forall l :: l in r <==> l in lessons && l.level == level && !DoneIn(ps, l.id)
  {
    if lessons == [] then []
    else
      var l := lessons[|lessons| - 1];
      assert lessons == lessons[..|lessons| - 1] + [l];
      Candidates(lessons[..|lessons| - 1], ps, level) + (if l.level == level && !DoneIn(ps, l.id) then [l] else [])
  }

  lemma {:induction false} CandidatesAppend(a: seq<Lesson>, b: seq<Lesson>, ps: seq<LessonProgress>, level: Level)
    ensures Candidates(a + b, ps, level) == Candidates(a, ps, level) + Candidates(b, ps, level)
    decreases |b|
  {
    if b == [] {
      assert a + b == a;
    } else {
      assert (a + b)[..|a + b| - 1] == a + b[..|b| - 1];
      CandidatesAppend(a, b[..|b| - 1], ps, level);
    }
  }

  predicate SortedByNumber(s: seq<Lesson>) {
    forall i, j :: 0 <= i < j < |s| ==> s[i].lessonNumber <= s[j].lessonNumber
  }

  /** Inserts `x` after every lesson whose number is not larger, keeping the sort stable. */
  function InsertByNumber(x: Lesson, s: seq<Lesson>): (r: seq<Lesson>)
    requires SortedByNumber(s)
    ensures |r| == |s| + 1
    ensures multiset(r) == multiset(s) + multiset{x}
    ensures SortedByNumber(r)
  {
    if s == [] then [x]
    else if x.lessonNumber < s[0].lessonNumber then [x] + s
    else
      var rest := InsertByNumber(x, s[1..]);
      HeadBelowRest(x, s, rest);
      assert s == [s[0]] + s[1..];
      [s[0]] + rest
  }

  /** The head of a sorted list is not above anything the insertion into its tail yields. */
  lemma HeadBelowRest(x: Lesson, s: seq<Lesson>, rest: seq<Lesson>)
    requires SortedByNumber(s) && s != [] && s[0].lessonNumber <= x.lessonNumber
    requires multiset(rest) == multiset(s[1..]) + multiset{x}
    ensures forall k :: 0 <= k < |rest| ==> s[0].lessonNumber <= rest[k].lessonNumber
  {
    forall k | 0 <= k < |rest|
      ensures s[0].lessonNumber <= rest[k].lessonNumber
    {
      assert rest[k] in multiset(rest);
      if rest[k] != x {
        assert rest[k] in multiset(s[1..]);
        assert rest[k] in s[1..];
      }
    }
  }

  /** `sort((a, b) => a.lesson_number - b.lesson_number)`: a stable sort by lesson number. */
  function SortByNumber(s: seq<Lesson>): (r: seq<Lesson>)
    ensures |r| == |s|
    ensures multiset(r) == multiset(s)
    ensures SortedByNumber(r)
  {
    if s == [] then []
    else
      assert s == s[..|s| - 1] + [s[|s| - 1]];
      InsertByNumber(s[|s| - 1], SortByNumber(s[..|s| - 1]))
  }

  /** `getRecommendedLessons()`: up to five not-yet-completed lessons at the learner's level,
      the lowest-numbered ones, in order of lesson number. */
  function Recommended(lessons: seq<Lesson>, ps: seq<LessonProgress>, level: Level): (r: seq<Lesson>)
    ensures var c := Candidates(lessons, ps, level);
      |r| == (if |c| < 5 then |c| else 5)
      && SortedByNumber(r)
      && multiset(r) <= multiset(c)
      && (forall x, y :: x in c && x !in r && y in r ==> y.lessonNumber <= x.lessonNumber)
    ensures forall l :: l in r ==> l in lessons && l.level == level && !DoneIn(ps, l.id)
  {
    SmallestOf(Candidates(lessons, ps, level), 5);
    Seqs.Take(SortByNumber(Candidates(lessons, ps, level)), 5)
  }

  /** The first `n` lessons of `c` sorted by number: as many as there are up to `n`, in order,
      drawn from `c`, and none of the others has a smaller number. */
  lemma SmallestOf(c: seq<Lesson>, n: nat)
    ensures var r := Seqs.Take(SortByNumber(c), n);
      |r| == (if |c| < n then |c| else n)
      && SortedByNumber(r)
      && multiset(r) <= multiset(c)
      && (forall x, y :: x in c && x !in r && y in r ==> y.lessonNumber <= x.lessonNumber)
      && (forall l :: l in r ==> l in c)
  {
    var s := SortByNumber(c);
    TakeSmallest(s, n);
    forall l
      ensures l in c <==> l in s
    {
      assert (l in c) == (l in multiset(c));
      assert (l in s) == (l in multiset(s));
    }
  }

  /** The first `n` lessons of a sorted list are a sub-multiset of it, and none of the rest
      has a smaller number. */
  lemma TakeSmallest(s: seq<Lesson>, n: nat)
    requires SortedByNumber(s)
    ensures var t := Seqs.Take(s, n);
      multiset(t) <= multiset(s)
      && (forall x, y :: x in s && x !in t && y in t ==> y.lessonNumber <= x.lessonNumber)
      && (forall l :: l in t ==> l in s)
  {
    var t := Seqs.Take(s, n);
    assert s == t + s[|t|..];
    assert forall k :: 0 <= k < |t| ==> t[k] == s[k];
    forall x, y | x in s && x !in t && y in t
      ensures y.lessonNumber <= x.lessonNumber
    {
      var j :| 0 <= j < |s| && s[j] == x;
      var i :| 0 <= i < |t| && t[i] == y;
      assert s[i] == y;
      assert i < j;
    }
  }

  /** Completing a started lesson with a passing score removes it from the recommendations. */
  lemma CompletedNotRecommended(lessons: seq<Lesson>, ps: seq<LessonProgress>, level: Level,
                                lessonId: string, score: real, now: int)
    requires FindProgress(ps, lessonId).Some? && score >= 70.0
    ensures forall l :: l in Recommended(lessons, AfterComplete(ps, lessonId, score, now), level) ==> l.id != lessonId
  {
    CompleteRecord(ps, lessonId, score, now);
    assert DoneIn(AfterComplete(ps, lessonId, score, now), lessonId);
  }

  // ---------------------------------------------------------------- the provider

  class Provider {
    /** Whether a user is signed in; every operation does nothing otherwise. */
    const signedIn: bool
    var userLevel: Level
    var avgAccuracy: real
    var vocabularySize: nat
    var complexityPreference: Preference
    var lessons: seq<Lesson>
    var userLessonProgress: seq<LessonProgress>
    var currentLesson: Option<Lesson>
    var grammarMastery: seq<TopicMastery>

    ghost predicate Valid()
      reads this
    {
      MasteryConsistent(grammarMastery)
    }

    /** The state after the first load: a signed-in learner's profile columns with their
        defaults, the database lessons or, when there are none, the bundled catalogue, and the
        stored lesson progress and grammar mastery rows; a signed-out visitor gets the
        catalogue, the defaults and no rows. The stored mastery rows were written by practice,
        so their tiers match their counters. */
    constructor (signedIn: bool, profile: Option<Profile>, dbLessons: seq<Lesson>, catalog: seq<CatalogEntry>,
                 storedProgress: seq<LessonProgress>, storedMastery: seq<TopicMastery>)
      requires MasteryConsistent(storedMastery)
      ensures Valid() && this.signedIn == signedIn
      ensures userLevel == (if signedIn && profile.Some? then profile.value.level else A1)
      ensures avgAccuracy == (if signedIn && profile.Some? then profile.value.avgAccuracy.GetOr(0.0) else 0.0)
      ensures vocabularySize == (if signedIn && profile.Some? then profile.value.vocabularySize.GetOr(0) else 0)
      ensures complexityPreference == (if signedIn && profile.Some? then profile.value.preference.GetOr(Auto) else Auto)
      ensures lessons == (if signedIn && |dbLessons| > 0 then dbLessons else LocalLessons(catalog))
      ensures userLessonProgress == (if signedIn then storedProgress else [])
      ensures grammarMastery == (if signedIn then storedMastery else []) && currentLesson.None?
    {
      this.signedIn := signedIn;
      userLevel := A1;
      avgAccuracy := 0.0;
      vocabularySize := 0;
      complexityPreference := Auto;
      if signedIn && profile.Some? {
        userLevel := profile.value.level;
        avgAccuracy := profile.value.avgAccuracy.GetOr(0.0);
        vocabularySize := profile.value.vocabularySize.GetOr(0);
        complexityPreference := profile.value.preference.GetOr(Auto);
      }
      lessons := if signedIn && |dbLessons| > 0 then dbLessons else LocalLessons(catalog);
      userLessonProgress := if signedIn then storedProgress else [];
      currentLesson := None;
      grammarMastery := if signedIn then storedMastery else [];
    }

    method StartLesson(lessonId: string, now: int)
      requires Valid()
      modifies this
      ensures Valid()
      ensures userLessonProgress == if signedIn then AfterStart(old(userLessonProgress), lessonId, now) else old(userLessonProgress)
      ensures currentLesson == if signedIn then
        (match Seqs.FirstIndex(lessons, (l: Lesson) => l.id == lessonId)
         case None => None
         case Some(k) => Some(lessons[k]))
        else old(currentLesson)
      ensures lessons == old(lessons) && grammarMastery == old(grammarMastery) && userLevel == old(userLevel)
      ensures avgAccuracy == old(avgAccuracy) && complexityPreference == old(complexityPreference)
      ensures vocabularySize == old(vocabularySize)
    {
      if !signedIn {
        return;
      }
      userLessonProgress := AfterStart(userLessonProgress, lessonId, now);
      var found := Seqs.FirstIndex(lessons, (l: Lesson) => l.id == lessonId);
      currentLesson := if found.Some? then Some(lessons[found.value]) else None;
    }

    method CompleteLesson(lessonId: string, score: real, now: int)
      requires Valid()
      modifies this
      ensures Valid()
      ensures userLessonProgress == if signedIn then AfterComplete(old(userLessonProgress), lessonId, score, now) else old(userLessonProgress)
      ensures lessons == old(lessons) && grammarMastery == old(grammarMastery) && userLevel == old(userLevel)
      ensures avgAccuracy == old(avgAccuracy) && complexityPreference == old(complexityPreference)
      ensures vocabularySize == old(vocabularySize) && currentLesson == old(currentLesson)
    {
      if !signedIn {
        return;
      }
      var found := FindProgress(userLessonProgress, lessonId);
      if found.None? {
        return;
      }
      var status := if score >= 90.0 then Status.Mastered else if score >= 70.0 then Completed else InProgress;
      var k := found.value;
      userLessonProgress := userLessonProgress[k := userLessonProgress[k].(
        status := status, score := score,
        completedAt := if status == Completed || status == Status.Mastered then Some(now) else None,
        lastAccessed := Some(now))];
    }

    method UpdateGrammarMastery(topic: string, correct: bool)
      requires Valid()
      modifies this
      ensures Valid()
      ensures grammarMastery == if signedIn then AfterPractice(old(grammarMastery), topic, correct) else old(grammarMastery)
      ensures lessons == old(lessons) && userLessonProgress == old(userLessonProgress) && userLevel == old(userLevel)
      ensures avgAccuracy == old(avgAccuracy) && complexityPreference == old(complexityPreference)
      ensures vocabularySize == old(vocabularySize) && currentLesson == old(currentLesson)
    {
      if !signedIn {
        return;
      }
      PracticeKeepsConsistent(grammarMastery, topic, correct);
      var found := FindTopic(grammarMastery, topic);
      if found.Some? {
        var existing := grammarMastery[found.value];
        var correctUses := existing.correctUses + (if correct then 1 else 0);
        var incorrectUses := existing.incorrectUses + (if correct then 0 else 1);
        var totalUses := correctUses + incorrectUses;
        var masteryLevel := Beginner;
        if correctUses >= 20 && AccuracyAtLeast(correctUses, totalUses, 90.0) {
          masteryLevel := Tier.Mastered;
        } else if correctUses >= 10 && AccuracyAtLeast(correctUses, totalUses, 80.0) {
          masteryLevel := Advanced;
        } else if correctUses >= 5 && AccuracyAtLeast(correctUses, totalUses, 70.0) {
          masteryLevel := Intermediate;
        }
        assert masteryLevel == TierFor(correctUses, incorrectUses);
        grammarMastery := grammarMastery[found.value := existing.(
          correctUses := correctUses, incorrectUses := incorrectUses, tier := masteryLevel)];
      } else {
        grammarMastery := grammarMastery + [TopicMastery(topic, if correct then 1 else 0, if correct then 0 else 1, Beginner)];
      }
    }

    method SetComplexityPreference(preference: Preference)
      modifies this
      ensures complexityPreference == if signedIn then preference else old(complexityPreference)
      ensures lessons == old(lessons) && userLessonProgress == old(userLessonProgress) && userLevel == old(userLevel)
      ensures avgAccuracy == old(avgAccuracy) && grammarMastery == old(grammarMastery)
      ensures vocabularySize == old(vocabularySize) && currentLesson == old(currentLesson)
    {
      if signedIn {
        complexityPreference := preference;
      }
    }

    /** Builds the prompt sentence by sentence. */
    method AdaptiveDifficultyPrompt() returns (prompt: string)
      ensures prompt == DifficultyPrompt(userLevel, avgAccuracy, complexityPreference, grammarMastery)
    {
      prompt := "The user is at " + LevelDescription(userLevel) + ". ";
      if complexityPreference == Auto {
        if avgAccuracy >= 85.0 {
          prompt := prompt + PerformingWell;
        } else if avgAccuracy < 70.0 {
          prompt := prompt + Struggling;
        }
      } else {
        prompt := prompt + (PreferenceText(complexityPreference) + ". ");
      }
      assert prompt == LevelSentence(userLevel) + Adjustment(complexityPreference, avgAccuracy);
      var weakGrammar := WeakTopics(grammarMastery);
      if |weakGrammar| > 0 {
        prompt := prompt + (FocusIntro + Text.Join(weakGrammar, ", ") + ". ");
      }
    }
  }
}
