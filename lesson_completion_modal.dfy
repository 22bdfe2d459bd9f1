/** The lesson completion modal: the grade for a score, the nested pass bands, the single
    encouragement line and the buttons. */
module LessonCompletionModal {
  import opened Optional
  import JsMath
  import L = LearningContext

  datatype Grade = GradeMastered | GradeCompleted | GradePassed | GradeTryAgain

  /** `isMastered`, `isCompleted` and `isPassed`. */
  predicate IsMastered(score: real) { score >= 90.0 }
  predicate IsCompleted(score: real) { score >= 70.0 }
  predicate IsPassed(score: real) { score >= 50.0 }

  /** The bands nest: mastered implies completed implies passed. */
  lemma BandsNest(score: real)
    ensures IsMastered(score) ==> IsCompleted(score)
    ensures IsCompleted(score) ==> IsPassed(score)
  {
  }

  /** `getGrade`: the first threshold the score reaches, from the top. */
  function GradeOf(score: real): (g: Grade)
    ensures g == GradeMastered <==> IsMastered(score)
    ensures g == GradeCompleted <==> IsCompleted(score) && !IsMastered(score)
    ensures g == GradePassed <==> IsPassed(score) && !IsCompleted(score)
    ensures g == GradeTryAgain <==> !IsPassed(score)
  {
    if score >= 90.0 then GradeMastered
    else if score >= 70.0 then GradeCompleted
    else if score >= 50.0 then GradePassed
    else GradeTryAgain
  }

  function GradeOrder(g: Grade): nat {
    match g
    case GradeTryAgain => 0
    case GradePassed => 1
    case GradeCompleted => 2
    case GradeMastered => 3
  }

  /** A higher score never shows a lower grade. */
  lemma GradeMonotone(lo: real, hi: real)
    requires lo <= hi
    ensures GradeOrder(GradeOf(lo)) <= GradeOrder(GradeOf(hi))
  {
  }

  /** The modal's grade agrees with the status `completeLesson` records for the same score:
      mastered and completed are the same bands, and passed or try-again both leave the lesson
      in progress. */
  lemma GradeAgreesWithStatus(score: real)
    ensures GradeOf(score) == GradeMastered <==> L.StatusFor(score) == L.Status.Mastered
    ensures GradeOf(score) == GradeCompleted <==> L.StatusFor(score) == L.Status.Completed
    ensures GradeOf(score) in {GradePassed, GradeTryAgain} <==> L.StatusFor(score) == L.Status.InProgress
  {
  }

  function GradeText(g: Grade): string {
    match g
    case GradeMastered => "MASTERED!"
    case GradeCompleted => "COMPLETED!"
    case GradePassed => "PASSED!"
    case GradeTryAgain => "TRY AGAIN"
  }

  function GradeEmoji(g: Grade): string {
    match g
    case GradeMastered => "\U{1F451}"
    case GradeCompleted => "\U{1F389}"
    case GradePassed => "\U{2705}"
    case GradeTryAgain => "\U{1F4AA}"
  }

  const Natural: string := "Incredible! You're a natural! \U{1F31F}"
  const Momentum: string := "Great job! Keep up the momentum! \U{1F680}"
  const Effort: string := "Good effort! Practice makes perfect! \U{1F4AA}"
  const NextTime: string := "Don't give up! You'll get it next time! \U{1F499}"

  /** The line each grade encourages with. */
  function EncouragementFor(g: Grade): string {
    match g
    case GradeMastered => Natural
    case GradeCompleted => Momentum
    case GradePassed => Effort
    case GradeTryAgain => NextTime
  }

  /** The four guarded lines of the encouragement box, each present when its condition holds. */
  function Encouragement(score: real): (r: seq<string>)
    ensures |r| == 1
    ensures r[0] == EncouragementFor(GradeOf(score))
  {
    (if IsMastered(score) then [Natural] else [])
    + (if IsCompleted(score) && !IsMastered(score) then [Momentum] else [])
    + (if IsPassed(score) && !IsCompleted(score) then [Effort] else [])
    + (if !IsPassed(score) then [NextTime] else [])
  }

  datatype Button = TryAgain | ReviewLesson | NextLesson

  /** The action buttons: a failed score offers only Try Again, a passing one Review and Next. */
  function Buttons(score: real): (r: seq<Button>)
    ensures TryAgain in r <==> !IsPassed(score)
    ensures ReviewLesson in r <==> IsPassed(score)
    ensures NextLesson in r <==> IsPassed(score)
    ensures |r| == if IsPassed(score) then 2 else 1
  {
    if !IsPassed(score) then [TryAgain] else [ReviewLesson, NextLesson]
  }

  datatype TopIcon = TrophyIcon | StarIcon | AwardIcon

  /** The icon above the card: trophy when mastered, star when completed, else the award. */
  function TopIconOf(score: real): (i: TopIcon)
    ensures i == TrophyIcon <==> GradeOf(score) == GradeMastered
    ensures i == StarIcon <==> GradeOf(score) == GradeCompleted
    ensures i == AwardIcon <==> GradeOf(score) in {GradePassed, GradeTryAgain}
  {
    if IsMastered(score) then TrophyIcon else if IsCompleted(score) then StarIcon else AwardIcon
  }

  datatype BadgeInfo = BadgeInfo(name: string, icon: string, description: string)

  datatype Card = Card(grade: Grade, icon: TopIcon, title: string, scoreShown: int, xpEarned: int,
                       badge: Option<BadgeInfo>, encouragement: seq<string>, buttons: seq<Button>,
                       confetti: bool)

  /** What the modal shows; nothing while closed. The opening effect's flags are taken as
      already set, so the confetti is shown exactly when the score passes. */
  function View(isOpen: bool, score: real, xpEarned: int, badge: Option<BadgeInfo>,
                lessonTitle: string): (r: Option<Card>)
    ensures !isOpen <==> r.None?
    ensures r.Some? ==>
      r.value.grade == GradeOf(score) && r.value.scoreShown == JsMath.Round(score)
      && r.value.encouragement == [EncouragementFor(GradeOf(score))]
      && (TryAgain in r.value.buttons <==> r.value.grade == GradeTryAgain)
      && (r.value.confetti <==> r.value.grade != GradeTryAgain)
      && r.value.badge == badge && r.value.xpEarned == xpEarned && r.value.title == lessonTitle
  {
    if !isOpen then None
    else
      var e := Encouragement(score);
      assert e == [e[0]];
      Some(Card(GradeOf(score), TopIconOf(score), lessonTitle, JsMath.Round(score), xpEarned,
                badge, e, Buttons(score), IsPassed(score)))
  }
}
