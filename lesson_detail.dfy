/** The five-stage lesson screen: intro (1), guided practice (2), free conversation (3),
    challenge (4) and reflection (5). It keeps the current stage, the set of completed stages,
    the challenge score and the XP earned in this attempt, and reports the final score to the
    lesson-progress store. */
module LessonDetail {
  import opened Optional
  import Seqs
  import LearningContext
  import IntSets

  const StageCount: int := 5
  const StageXp: int := 50

  /** The navigation state of an attempt. */
  datatype Stages = Stages(current: int, completed: set<int>)

  const Fresh: Stages := Stages(1, {})

  /** The state after the completion callback of stage `n`: `n` is completed and, below the
      last stage, the next stage becomes current even if the learner was further ahead. */
  function AfterStageComplete(s: Stages, n: int): (r: Stages)
    ensures r.completed == s.completed + {n}
    ensures n < StageCount ==> r.current == n + 1
    ensures n >= StageCount ==> r.current == s.current
  {
    Stages(if n < StageCount then n + 1 else s.current, s.completed + {n})
  }

  /** `canGoToStage`: a stage header is selectable when it is not beyond the current stage or
      was completed. */
  predicate CanGoTo(s: Stages, n: int) {
    n <= s.current || n in s.completed
  }

  /** A click on the header of stage `n`: accessible stages become current, others are ignored. */
  function AfterSelect(s: Stages, n: int): (r: Stages)
    ensures r.completed == s.completed
    ensures r.current == if CanGoTo(s, n) then n else s.current
  {
    if CanGoTo(s, n) then s.(current := n) else s
  }

  /** The "previous" arrow. */
  function AfterPrevious(s: Stages): (r: Stages)
    ensures r.completed == s.completed
    ensures r.current == if s.current > 1 then s.current - 1 else s.current
  {
    if s.current > 1 then s.(current := s.current - 1) else s
  }

  /** The "next" arrow. */
  function AfterNext(s: Stages): (r: Stages)
    ensures r.completed == s.completed
    ensures r.current == if s.current < StageCount && s.current in s.completed then s.current + 1 else s.current
  {
    if s.current < StageCount && s.current in s.completed then s.(current := s.current + 1) else s
  }

  /** The attempt has completed exactly the first `k` stages, `k` is at most 4, and the current
      stage is one of them or the one right after. */
  predicate InOrderAt(s: Stages, k: nat) {
    k <= 4 && s.completed == IntSets.Interval(1, k + 1) && 1 <= s.current <= k + 1
  }

  /** The events the screen can deliver. Stage `n`'s completion callback is rendered only while
      `n` is the current stage, and stage 5 has none: the reflection's finish button submits
      the lesson instead. */
  datatype Event = CompleteCurrent | SelectStage(n: int) | Previous | Next

  /** Whether the screen can deliver the event in this state. */
  predicate Enabled(s: Stages, e: Event) {
    match e
    case CompleteCurrent => s.current < StageCount
    case SelectStage(n) => 1 <= n <= StageCount
    case Previous => true
    case Next => true
  }

  function Step(s: Stages, e: Event): Stages {
    match e
    case CompleteCurrent => AfterStageComplete(s, s.current)
    case SelectStage(n) => AfterSelect(s, n)
    case Previous => AfterPrevious(s)
    case Next => AfterNext(s)
  }

  /** The size of the completed prefix after an event: completing the stage right after the
      prefix extends it by one, every other event keeps it. */
  function PrefixAfter(s: Stages, k: nat, e: Event): nat {
    if e == CompleteCurrent && s.current == k + 1 then k + 1 else k
  }

  /** Every event the screen can deliver keeps the completed stages a prefix 1..k with k at most
      4 and the current stage at most k + 1: no stage can be skipped. */
  lemma {:induction false} StepKeepsInOrder(s: Stages, k: nat, e: Event)
    requires InOrderAt(s, k) && Enabled(s, e)
    ensures InOrderAt(Step(s, e), PrefixAfter(s, k, e))
  {
    match e
    case CompleteCurrent =>
      if s.current == k + 1 {
        assert IntSets.Interval(1, k + 1) + {k + 1} == IntSets.Interval(1, k + 2);
      } else {
        assert IntSets.Interval(1, k + 1) + {s.current} == IntSets.Interval(1, k + 1);
      }
    case SelectStage(n) =>
    case Previous =>
    case Next =>
  }

  /** The state after a sequence of events from the fresh attempt. */
  function Run(events: seq<Event>): Stages
  {
    if events == [] then Fresh else Step(Run(events[..|events| - 1]), events[|events| - 1])
  }

  predicate AllEnabled(events: seq<Event>) {
    forall i :: 0 <= i < |events| ==> Enabled(Run(events[..i]), events[i])
  }

  /** Any run of enabled events from a fresh attempt ends with completed stages 1..k for some
      k at most 4 and the current stage at most k + 1. */
  lemma {:induction false} RunInOrder(events: seq<Event>) returns (k: nat)
    requires AllEnabled(events)
    ensures InOrderAt(Run(events), k)
  {
    if events == [] {
      k := 0;
    } else {
      var init := events[..|events| - 1];
      assert forall i :: 0 <= i < |init| ==> init[..i] == events[..i];
      var k0 := RunInOrder(init);
      assert events[..|events| - 1] == init;
      StepKeepsInOrder(Run(init), k0, events[|events| - 1]);
      k := PrefixAfter(Run(init), k0, events[|events| - 1]);
    }
  }

  /** From a fresh attempt the reflection stage is never among the completed stages and at most
      four stages count towards the final score. */
  lemma {:induction false} ReflectionNeverCompleted(events: seq<Event>)
    requires AllEnabled(events)
    ensures StageCount !in Run(events).completed && |Run(events).completed| <= 4
  {
    var k := RunInOrder(events);
    IntSets.IntervalSize(1, k + 1);
  }

  /** Selecting a stage beyond the current one that was not completed changes nothing. */
  lemma SkipRejected(s: Stages, n: int)
    requires n > s.current && n !in s.completed
    ensures AfterSelect(s, n) == s
  {
  }

  /** The stages restored on open from the learner's record for the lesson: a saved non-zero
      current stage and a saved list of completed stages replace the screen's own. */
  function Restore(s: Stages, progress: Option<LearningContext.LessonProgress>): (r: Stages)
    ensures progress.None? ==> r == s
    ensures progress.Some? && progress.value.savedStages.Some? ==>
      forall n :: n in r.completed <==> n in progress.value.savedStages.value
    ensures progress.Some? && progress.value.savedStages.None? ==> r.completed == s.completed
    ensures progress.Some? ==>
      r.current == if progress.value.savedStage.Some? && progress.value.savedStage.value != 0
                   then progress.value.savedStage.value else s.current
  {
    match progress
    case None => s
    case Some(p) =>
      Stages(if p.savedStage.Some? && p.savedStage.value != 0 then p.savedStage.value else s.current,
             if p.savedStages.Some? then set n | n in p.savedStages.value else s.completed)
  }

  /** The learner's record for a lesson, if any. */
  function ProgressOf(ps: seq<LearningContext.LessonProgress>, lessonId: string): Option<LearningContext.LessonProgress>
  {
    match LearningContext.FindProgress(ps, lessonId)
    case None => None
    case Some(k) => Some(ps[k])
  }

  /** The progress store never writes the saved stage columns, so on records it produced the
      restore on open changes nothing: every attempt starts fresh at stage 1. */
  lemma NothingRestored(s: Stages, ps: seq<LearningContext.LessonProgress>, lessonId: string)
    requires LearningContext.NoSavedStages(ps)
    ensures Restore(s, ProgressOf(ps, lessonId)) == s
  {
  }

  // ---------------------------------------------------------------- the final score

  /** `(completedStages.size / 5) * 70 + (challengeScore / 100) * 30`. */
  function FinalScore(completedCount: nat, challengeScore: int): real
  {
    (completedCount as real / 5.0) * 70.0 + (challengeScore as real / 100.0) * 30.0
  }

  /** Each completed stage is worth 14 points and each challenge point 0.3. */
  lemma FinalScoreLinear(completedCount: nat, challengeScore: int)
    ensures FinalScore(completedCount, challengeScore) == 14.0 * completedCount as real + 0.3 * challengeScore as real
  {
  }

  lemma FinalScoreExamples()
    ensures FinalScore(3, 0) == 42.0 && FinalScore(5, 0) == 70.0 && FinalScore(5, 100) == 100.0
    ensures FinalScore(4, 100) == 86.0
  {
  }

  /** With at most four completed stages the breadth term is at most 56, so a lesson is completed
      (score 70) only with a challenge score of at least 47 and mastered (score 90) only with at
      least 114, which needs quality points on top of the 100 exchange points. */
  lemma {:induction false} FreshAttemptThresholds(completedCount: nat, challengeScore: int)
    requires completedCount <= 4
    ensures (completedCount as real / 5.0) * 70.0 <= 56.0
    ensures FinalScore(completedCount, challengeScore) >= 70.0 ==> challengeScore >= 47
    ensures FinalScore(completedCount, challengeScore) >= 90.0 ==> challengeScore >= 114
  {
    FinalScoreLinear(completedCount, challengeScore);
  }

  /** The badge the reflection stage shows: "Conversation Master" from a challenge score of 90. */
  function ReflectionBadges(challengeScore: int): (r: seq<string>)
    ensures |r| <= 1
    ensures r != [] <==> challengeScore >= 90
  {
    if challengeScore >= 90 then ["Conversation Master"] else []
  }

  // ---------------------------------------------------------------- next lesson

  /** `findNextLesson`: the id of the lesson after this one in list order. */
  function FindNextLesson(lessons: seq<LearningContext.Lesson>, lessonId: string): (r: Option<string>)
    ensures r.Some? <==>
      exists i :: 0 <= i < |lessons| - 1 && lessons[i].id == lessonId
                  && forall j :: 0 <= j < i ==> lessons[j].id != lessonId
    ensures r.Some? ==>
      exists i :: 0 <= i < |lessons| - 1 && lessons[i].id == lessonId
                  && (forall j :: 0 <= j < i ==> lessons[j].id != lessonId)
                  && r.value == lessons[i + 1].id
  {
    match Seqs.FirstIndex(lessons, (l: LearningContext.Lesson) => l.id == lessonId)
    case None => None
    case Some(i) => if i < |lessons| - 1 then Some(lessons[i + 1].id) else None
  }

  /** The last lesson of the list and a lesson not in it have no next lesson. */
  lemma NoNextLesson(lessons: seq<LearningContext.Lesson>, lessonId: string)
    requires (forall j :: 0 <= j < |lessons| ==> lessons[j].id != lessonId)
             || (|lessons| > 0 && lessons[|lessons| - 1].id == lessonId
                 && forall j :: 0 <= j < |lessons| - 1 ==> lessons[j].id != lessonId)
    ensures FindNextLesson(lessons, lessonId).None?
  {
  }

  // ---------------------------------------------------------------- the screen

  class Attempt {
    const lessonId: string
    var currentStage: int
    var completedStages: set<int>
    var challengeScore: int
    var totalXp: int

    function State(): Stages
      reads this
    {
      Stages(currentStage, completedStages)
    }

    constructor (lessonId: string)
      ensures this.lessonId == lessonId && State() == Fresh
      ensures challengeScore == 0 && totalXp == 0
    {
      this.lessonId := lessonId;
      currentStage := 1;
      completedStages := {};
      challengeScore := 0;
      totalXp := 0;
    }

    /** The effect run when the screen opens: start the lesson when it exists and has no record
        or an unstarted one, then restore a saved stage and saved completed stages. */
    method Open(learning: LearningContext.Provider, now: int)
      requires learning.Valid()
      modifies this, learning
      ensures learning.Valid()
      ensures var found := Seqs.FirstIndex(old(learning.lessons), (l: LearningContext.Lesson) => l.id == lessonId);
        var p := LearningContext.FindProgress(old(learning.userLessonProgress), lessonId);
        var shouldStart := found.Some? && (p.None? || old(learning.userLessonProgress)[p.value].status == LearningContext.Status.NotStarted);
        learning.userLessonProgress ==
          if shouldStart && learning.signedIn
          then LearningContext.AfterStart(old(learning.userLessonProgress), lessonId, now)
          else old(learning.userLessonProgress)
      ensures learning.lessons == old(learning.lessons) && learning.grammarMastery == old(learning.grammarMastery)
      ensures learning.userLevel == old(learning.userLevel) && learning.complexityPreference == old(learning.complexityPreference)
      ensures learning.avgAccuracy == old(learning.avgAccuracy) && learning.vocabularySize == old(learning.vocabularySize)
      ensures State() == Restore(old(State()), ProgressOf(old(learning.userLessonProgress), lessonId))
      ensures challengeScore == old(challengeScore) && totalXp == old(totalXp)
    {
      var found := Seqs.FirstIndex(learning.lessons, (l: LearningContext.Lesson) => l.id == lessonId);
      var progress := ProgressOf(learning.userLessonProgress, lessonId);
      if found.Some? && (progress.None? || progress.value.status == LearningContext.Status.NotStarted) {
        learning.StartLesson(lessonId, now);
      }
      if progress.Some? && progress.value.savedStage.Some? && progress.value.savedStage.value != 0 {
        currentStage := progress.value.savedStage.value;
      }
      if progress.Some? && progress.value.savedStages.Some? {
        completedStages := set n | n in progress.value.savedStages.value;
      }
    }

    method HandleStageComplete(stage: int)
      requires 1 <= stage <= StageCount
      modifies this
      ensures State() == AfterStageComplete(old(State()), stage)
      ensures totalXp == old(totalXp) + StageXp && challengeScore == old(challengeScore)
    {
      completedStages := completedStages + {stage};
      totalXp := totalXp + StageXp;
      if stage < StageCount {
        currentStage := stage + 1;
      }
    }

    method HandleChallengeComplete(score: int)
      modifies this
      ensures challengeScore == score
      ensures State() == AfterStageComplete(old(State()), 4) && totalXp == old(totalXp) + StageXp
    {
      challengeScore := score;
      HandleStageComplete(4);
    }

    /** The reflection's finish button: submit the final score to the progress store. */
    method HandleLessonFinish(learning: LearningContext.Provider, now: int)
      requires learning.Valid()
      modifies learning
      ensures learning.Valid()
      ensures learning.userLessonProgress ==
        if learning.signedIn
        then LearningContext.AfterComplete(old(learning.userLessonProgress), lessonId,
                                           FinalScore(|completedStages|, challengeScore), now)
        else old(learning.userLessonProgress)
      ensures learning.lessons == old(learning.lessons) && learning.grammarMastery == old(learning.grammarMastery)
    {
      var finalScore := (|completedStages| as real / 5.0) * 70.0 + (challengeScore as real / 100.0) * 30.0;
      learning.CompleteLesson(lessonId, finalScore, now);
    }

    /** The reflection's next-lesson button: the same submission as finishing, then the next
        lesson is opened when the screen has a callback for it, else the screen closes. */
    method HandleNextLesson(learning: LearningContext.Provider, now: int, nextLessonId: string, canOpenLesson: bool)
      returns (navigateTo: Option<string>)
      requires learning.Valid()
      modifies learning
      ensures learning.Valid()
      ensures learning.userLessonProgress ==
        if learning.signedIn
        then LearningContext.AfterComplete(old(learning.userLessonProgress), lessonId,
                                           FinalScore(|completedStages|, challengeScore), now)
        else old(learning.userLessonProgress)
      ensures learning.lessons == old(learning.lessons) && learning.grammarMastery == old(learning.grammarMastery)
      ensures navigateTo == if canOpenLesson then Some(nextLessonId) else None
    {
      var finalScore := (|completedStages| as real / 5.0) * 70.0 + (challengeScore as real / 100.0) * 30.0;
      learning.CompleteLesson(lessonId, finalScore, now);
      navigateTo := if canOpenLesson then Some(nextLessonId) else None;
    }

    method CanGoToStage(stage: int) returns (ok: bool)
      ensures ok == CanGoTo(State(), stage)
    {
      ok := stage <= currentStage || stage in completedStages;
    }

    method SelectStage(stage: int)
      modifies this
      ensures State() == AfterSelect(old(State()), stage)
      ensures challengeScore == old(challengeScore) && totalXp == old(totalXp)
    {
      var isAccessible := CanGoToStage(stage);
      if isAccessible {
        currentStage := stage;
      }
    }

    method GoToPreviousStage()
      modifies this
      ensures State() == AfterPrevious(old(State()))
      ensures challengeScore == old(challengeScore) && totalXp == old(totalXp)
    {
      if currentStage > 1 {
        currentStage := currentStage - 1;
      }
    }

    method GoToNextStage()
      modifies this
      ensures State() == AfterNext(old(State()))
      ensures challengeScore == old(challengeScore) && totalXp == old(totalXp)
    {
      if currentStage < StageCount && currentStage in completedStages {
        currentStage := currentStage + 1;
      }
    }
  }
}
